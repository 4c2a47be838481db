/** The value-level description of a chunk: its 16x16x16 grid as a flat
    sequence, the bounds-safe cell queries, the per-face atlas tile choice and
    the face-culled mesh that generateMesh must produce. */
module VoxelMesh {
  import opened Blocks
  import opened Coords

  /** Number of cells in a chunk. */
  const CELLS: int := CHUNK_SIZE * CHUNK_SIZE * CHUNK_SIZE

  predicate InBounds(x: int, y: int, z: int)
  {
    0 <= x < CHUNK_SIZE && 0 <= y < CHUNK_SIZE && 0 <= z < CHUNK_SIZE
  }

  /** Flat position of blocks[x][y][z]. */
  function Idx(x: int, y: int, z: int): int
  {
    (x * CHUNK_SIZE + y) * CHUNK_SIZE + z
  }

  lemma IdxInRange(x: int, y: int, z: int)
    requires InBounds(x, y, z)
    ensures 0 <= Idx(x, y, z) < CELLS
  {
  }

  /** Every flat index in range is the index of its decomposed cell. */
  lemma FlatDecompose(i: int)
    requires 0 <= i < CELLS
    ensures InBounds(i / (CHUNK_SIZE * CHUNK_SIZE), i / CHUNK_SIZE % CHUNK_SIZE, i % CHUNK_SIZE)
    ensures Idx(i / (CHUNK_SIZE * CHUNK_SIZE), i / CHUNK_SIZE % CHUNK_SIZE, i % CHUNK_SIZE) == i
  {
  }

  /** Flat index i names the cell (i / 256, i / 16 % 16, i % 16). */
  lemma {:induction false} IdxInverse(x: int, y: int, z: int)
    requires InBounds(x, y, z)
    ensures Idx(x, y, z) / (CHUNK_SIZE * CHUNK_SIZE) == x
    ensures Idx(x, y, z) / CHUNK_SIZE % CHUNK_SIZE == y
    ensures Idx(x, y, z) % CHUNK_SIZE == z
  {
    var i := Idx(x, y, z);
    assert i == 256 * x + (16 * y + z);
    assert i == 16 * (16 * x + y) + z;
  }

  /** getBlockType: Air outside the grid, the stored cell inside. */
  function CellAt(g: seq<BlockType>, x: int, y: int, z: int): BlockType
    requires |g| == CELLS
  {
    if InBounds(x, y, z) then g[Idx(x, y, z)] else Air
  }

  /** isAir: out of range counts as air. */
  function AirAt(g: seq<BlockType>, x: int, y: int, z: int): (r: bool)
    requires |g| == CELLS
    ensures r <==> CellAt(g, x, y, z) == Air
  {
    if !InBounds(x, y, z) then true else g[Idx(x, y, z)] == Air
  }

  /** isBlockSolid of a chunk: out of range is not solid; inside, anything but
      Air is solid (Water included, unlike the registry's predicate). */
  function SolidAt(g: seq<BlockType>, x: int, y: int, z: int): (r: bool)
    requires |g| == CELLS
    ensures r <==> InBounds(x, y, z) && !AirAt(g, x, y, z)
    ensures !InBounds(x, y, z) ==> !r
  {
    if !InBounds(x, y, z) then false else g[Idx(x, y, z)] != Air
  }

  /** The tiles of the texture atlas. */
  datatype AtlasTile =
    | GrassTop | GrassSide | DirtTile | StoneTile | CobblestoneTile | WoodPlankTile
    | WoodLogTop | WoodLogSide | LeavesTile | SandTile | WaterTile | BedrockTile

  /** Face directions: 0 +Z, 1 -Z, 2 +X, 3 -X, 4 +Y (top), 5 -Y (bottom). */
  const TOP: int := 4
  const BOTTOM: int := 5

  /** getTextureForBlock: the atlas tile for one face of one block type. */
  function TextureForBlock(b: BlockType, faceDirection: int): (r: AtlasTile)
    ensures b == Grass ==> (r == GrassTop <==> faceDirection == TOP)
    ensures b == Grass ==> (r == DirtTile <==> faceDirection == BOTTOM)
    ensures b == Grass && faceDirection != TOP && faceDirection != BOTTOM ==> r == GrassSide
    ensures b == WoodLog ==> (r == WoodLogTop <==> faceDirection == TOP || faceDirection == BOTTOM)
    ensures b == WoodLog && faceDirection != TOP && faceDirection != BOTTOM ==> r == WoodLogSide
    ensures b !in {Grass, Dirt, Stone, Cobblestone, WoodPlank, WoodLog, Leaves, Sand, Water, Bedrock} ==>
      r == StoneTile
  {
    match b
    case Grass =>
      if faceDirection == TOP then GrassTop
      else if faceDirection == BOTTOM then DirtTile
      else GrassSide
    case Dirt => DirtTile
    case Stone => StoneTile
    case Cobblestone => CobblestoneTile
    case WoodPlank => WoodPlankTile
    case WoodLog =>
      if faceDirection == TOP || faceDirection == BOTTOM then WoodLogTop else WoodLogSide
    case Leaves => LeavesTile
    case Sand => SandTile
    case Water => WaterTile
    case Bedrock => BedrockTile
    case _ => StoneTile
  }

  /** Only Grass and WoodLog vary by face; types without their own tile use
      stone's. */
  lemma TextureChoice(b: BlockType, d: int, e: int)
    ensures b != Grass && b != WoodLog ==> TextureForBlock(b, d) == TextureForBlock(b, e)
  {
  }

  /** One emitted quad: the cell, the face direction and the cell's type. */
  datatype Face = Face(x: int, y: int, z: int, dir: int, block: BlockType)

  /** The neighbour a face looks at. */
  function Neighbour(x: int, y: int, z: int, dir: int): (int, int, int)
  {
    if dir == 0 then (x, y, z + 1)
    else if dir == 1 then (x, y, z - 1)
    else if dir == 2 then (x + 1, y, z)
    else if dir == 3 then (x - 1, y, z)
    else if dir == 4 then (x, y + 1, z)
    else (x, y - 1, z)
  }

  /** True when direction dir of cell (x,y,z) borders air. */
  predicate Exposed(g: seq<BlockType>, x: int, y: int, z: int, dir: int)
    requires |g| == CELLS
  {
    var n := Neighbour(x, y, z, dir);
    AirAt(g, n.0, n.1, n.2)
  }

  /** The condition under which the mesher emits face f: its cell is inside
      the chunk and not air, f carries that cell's type, and the neighbour in
      f's direction is air. */
  predicate Emits(g: seq<BlockType>, f: Face)
    requires |g| == CELLS
  {
    InBounds(f.x, f.y, f.z) && 0 <= f.dir < 6
    && f.block == CellAt(g, f.x, f.y, f.z) && f.block != Air && Exposed(g, f.x, f.y, f.z, f.dir)
  }

  /** The quad the mesher appends for cell (x, y, z) and direction d, if
      any. */
  function Emit(g: seq<BlockType>, x: int, y: int, z: int, d: int): seq<Face>
    requires |g| == CELLS
  {
    var b := CellAt(g, x, y, z);
    if b != Air && Exposed(g, x, y, z, d) then [Face(x, y, z, d, b)] else []
  }

  /** The loops' position (x, y, z, d), read lexicographically: every visit
      of a cell and direction that comes before it. */
  predicate Before(f: Face, x: int, y: int, z: int, d: int)
  {
    f.x < x || (f.x == x && (f.y < y || (f.y == y && (f.z < z || (f.z == z && f.dir < d)))))
  }

  /** The faces the mesher has appended when its loops reach position
      (x, y, z) with directions 0 .. d-1 of that cell done. Position
      (x, y, 16, 0) is the end of row y and (x, 16, 0, 0) the end of slab x. */
  function FacesBefore(g: seq<BlockType>, x: int, y: int, z: int, d: int): seq<Face>
    requires |g| == CELLS
    requires 0 <= x <= CHUNK_SIZE && 0 <= y <= CHUNK_SIZE && 0 <= z <= CHUNK_SIZE && 0 <= d <= 6
    decreases x, y, z, d
  {
    if d > 0 then FacesBefore(g, x, y, z, d - 1) + Emit(g, x, y, z, d - 1)
    else if z > 0 then FacesBefore(g, x, y, z - 1, 6)
    else if y > 0 then FacesBefore(g, x, y - 1, CHUNK_SIZE, 0)
    else if x > 0 then FacesBefore(g, x - 1, CHUNK_SIZE, 0, 0)
    else []
  }

  /** The mesh of the whole grid: at most six quads per cell. */
  function Faces(g: seq<BlockType>): (r: seq<Face>)
    requires |g| == CELLS
    ensures |r| <= 6 * CELLS
  {
    FaceCountBound(g, CHUNK_SIZE, 0, 0, 0);
    FacesBefore(g, CHUNK_SIZE, 0, 0, 0)
  }

  /** A face is among those appended before a position exactly when the
      mesher emits it and its own position comes earlier. */
  lemma {:induction false} FacesBeforeMembership(g: seq<BlockType>, x: int, y: int, z: int, d: int, f: Face)
    requires |g| == CELLS
    requires 0 <= x <= CHUNK_SIZE && 0 <= y <= CHUNK_SIZE && 0 <= z <= CHUNK_SIZE && 0 <= d <= 6
    ensures f in FacesBefore(g, x, y, z, d) <==> Emits(g, f) && Before(f, x, y, z, d)
    decreases x, y, z, d
  {
    if d > 0 {
      var prefix, last := FacesBefore(g, x, y, z, d - 1), Emit(g, x, y, z, d - 1);
      assert FacesBefore(g, x, y, z, d) == prefix + last;
      FacesBeforeMembership(g, x, y, z, d - 1, f);
    } else if z > 0 {
      FacesBeforeMembership(g, x, y, z - 1, 6, f);
    } else if y > 0 {
      FacesBeforeMembership(g, x, y - 1, CHUNK_SIZE, 0, f);
    } else if x > 0 {
      FacesBeforeMembership(g, x - 1, CHUNK_SIZE, 0, 0, f);
    }
  }

  /** An air cell adds nothing in any direction. */
  lemma {:induction false} AirCellSkipped(g: seq<BlockType>, x: int, y: int, z: int, d: int)
    requires |g| == CELLS && InBounds(x, y, z) && 0 <= d <= 6 && CellAt(g, x, y, z) == Air
    ensures FacesBefore(g, x, y, z, d) == FacesBefore(g, x, y, z, 0)
  {
    if d > 0 {
      AirCellSkipped(g, x, y, z, d - 1);
      assert FacesBefore(g, x, y, z, d) == FacesBefore(g, x, y, z, d - 1) + [];
    }
  }

  /** Mesh/grid consistency: the mesh holds a quad for (cell, direction)
      exactly when the cell is not air and its neighbour that way is air. */
  lemma FaceEmittedIff(g: seq<BlockType>, x: int, y: int, z: int, dir: int)
    requires |g| == CELLS && InBounds(x, y, z) && 0 <= dir < 6
    ensures Face(x, y, z, dir, CellAt(g, x, y, z)) in Faces(g) <==>
      CellAt(g, x, y, z) != Air && Exposed(g, x, y, z, dir)
  {
    FacesBeforeMembership(g, CHUNK_SIZE, 0, 0, 0, Face(x, y, z, dir, CellAt(g, x, y, z)));
  }

  /** Every quad of the mesh is an emitted face: in the grid, of a non-air
      cell, carrying that cell's type and facing air. In particular a cell set
      to air has no quad after remeshing. */
  lemma FacesSound(g: seq<BlockType>, f: Face)
    requires |g| == CELLS && f in Faces(g)
    ensures Emits(g, f)
    ensures CellAt(g, f.x, f.y, f.z) != Air
  {
    FacesBeforeMembership(g, CHUNK_SIZE, 0, 0, 0, f);
  }

  /** Face a is visited strictly before face b by the mesher's loops. */
  predicate VisitedBefore(a: Face, b: Face)
  {
    Before(a, b.x, b.y, b.z, b.dir)
  }

  /** Every face of s is visited before every later one. */
  predicate InLoopOrder(s: seq<Face>)
  {
    forall i, j | 0 <= i < j < |s| :: VisitedBefore(s[i], s[j])
  }

  /** The faces appended so far come in strict loop order. */
  lemma {:induction false} FacesBeforeOrdered(g: seq<BlockType>, x: int, y: int, z: int, d: int)
    requires |g| == CELLS
    requires 0 <= x <= CHUNK_SIZE && 0 <= y <= CHUNK_SIZE && 0 <= z <= CHUNK_SIZE && 0 <= d <= 6
    ensures InLoopOrder(FacesBefore(g, x, y, z, d))
    decreases x, y, z, d
  {
    if d > 0 {
      var prefix, last := FacesBefore(g, x, y, z, d - 1), Emit(g, x, y, z, d - 1);
      var s := FacesBefore(g, x, y, z, d);
      assert s == prefix + last;
      FacesBeforeOrdered(g, x, y, z, d - 1);
      forall i, j | 0 <= i < j < |s|
        ensures VisitedBefore(s[i], s[j])
      {
        if j < |prefix| {
          assert s[i] == prefix[i] && s[j] == prefix[j];
          assert VisitedBefore(prefix[i], prefix[j]);
        } else {
          FacesBeforeMembership(g, x, y, z, d - 1, prefix[i]);
          assert s[i] == prefix[i] && s[j] == Face(x, y, z, d - 1, CellAt(g, x, y, z));
        }
      }
    } else if z > 0 {
      assert FacesBefore(g, x, y, z, d) == FacesBefore(g, x, y, z - 1, 6);
      FacesBeforeOrdered(g, x, y, z - 1, 6);
    } else if y > 0 {
      assert FacesBefore(g, x, y, z, d) == FacesBefore(g, x, y - 1, CHUNK_SIZE, 0);
      FacesBeforeOrdered(g, x, y - 1, CHUNK_SIZE, 0);
    } else if x > 0 {
      assert FacesBefore(g, x, y, z, d) == FacesBefore(g, x - 1, CHUNK_SIZE, 0, 0);
      FacesBeforeOrdered(g, x - 1, CHUNK_SIZE, 0, 0);
    }
  }

  /** No (cell, direction) pair has two quads in the mesh: the faces are all
      different, since the loops visit each pair once and in order. */
  lemma FacesDistinct(g: seq<BlockType>)
    requires |g| == CELLS
    ensures forall i, j | 0 <= i < j < |Faces(g)| :: Faces(g)[i] != Faces(g)[j]
  {
    var s := Faces(g);
    FacesBeforeOrdered(g, CHUNK_SIZE, 0, 0, 0);
    forall i, j | 0 <= i < j < |s|
      ensures s[i] != s[j]
    {
      assert VisitedBefore(s[i], s[j]);
      assert !VisitedBefore(s[i], s[i]);
    }
  }

  /** At most one quad per visited (cell, direction) pair. */
  lemma {:induction false} FaceCountBound(g: seq<BlockType>, x: int, y: int, z: int, d: int)
    requires |g| == CELLS
    requires 0 <= x <= CHUNK_SIZE && 0 <= y <= CHUNK_SIZE && 0 <= z <= CHUNK_SIZE && 0 <= d <= 6
    ensures |FacesBefore(g, x, y, z, d)| <= 6 * (256 * x + 16 * y + z) + d
    decreases x, y, z, d
  {
    if d > 0 {
      var prefix, last := FacesBefore(g, x, y, z, d - 1), Emit(g, x, y, z, d - 1);
      assert FacesBefore(g, x, y, z, d) == prefix + last;
      FaceCountBound(g, x, y, z, d - 1);
    } else if z > 0 {
      FaceCountBound(g, x, y, z - 1, 6);
    } else if y > 0 {
      FaceCountBound(g, x, y - 1, CHUNK_SIZE, 0);
    } else if x > 0 {
      FaceCountBound(g, x - 1, CHUNK_SIZE, 0, 0);
    }
  }

  /** The whole mesh has at most six quads per cell, so the running vertex
      counter stays below 4 * 6 * 4096 = 98304 and the source's unsigned
      offset never wraps. */
  lemma MeshBound(g: seq<BlockType>)
    requires |g| == CELLS
    ensures |Faces(g)| <= 6 * CELLS
  {
    FaceCountBound(g, CHUNK_SIZE, 0, 0, 0);
  }

  /** One vertex component of the float buffer: a position coordinate, or
      the u or v of an atlas tile (u1/v1 when second is false, u2/v2 when
      true). */
  datatype MeshValue = Coord(v: int) | TexU(tile: AtlasTile, second: bool) | TexV(tile: AtlasTile, second: bool)

  datatype Point = Point(x: int, y: int, z: int)

  /** The four corners of a quad, in the order addFace receives them. */
  datatype Quad = Quad(p1: Point, p2: Point, p3: Point, p4: Point)

  /** p is a corner of f's cell cube lying on the side the cell shares with
      the neighbour f looks at. */
  predicate OnSharedSide(p: Point, f: Face)
  {
    var n := Neighbour(f.x, f.y, f.z, f.dir);
    f.x <= p.x <= f.x + 1 && f.y <= p.y <= f.y + 1 && f.z <= p.z <= f.z + 1
    && (n.0 != f.x ==> p.x == if n.0 > f.x then f.x + 1 else f.x)
    && (n.1 != f.y ==> p.y == if n.1 > f.y then f.y + 1 else f.y)
    && (n.2 != f.z ==> p.z == if n.2 > f.z then f.z + 1 else f.z)
  }

  /** The four corners addFace receives for a face, as the mesher lists them:
      the four corners of the cube side the face covers. */
  function Corners(f: Face): (q: Quad)
    ensures OnSharedSide(q.p1, f) && OnSharedSide(q.p2, f) && OnSharedSide(q.p3, f) && OnSharedSide(q.p4, f)
    ensures q.p1 != q.p2 && q.p1 != q.p3 && q.p1 != q.p4 && q.p2 != q.p3 && q.p2 != q.p4 && q.p3 != q.p4
  {
    var x, y, z := f.x, f.y, f.z;
    if f.dir == 0 then Quad(Point(x, y, z + 1), Point(x + 1, y, z + 1), Point(x + 1, y + 1, z + 1), Point(x, y + 1, z + 1))
    else if f.dir == 1 then Quad(Point(x + 1, y, z), Point(x, y, z), Point(x, y + 1, z), Point(x + 1, y + 1, z))
    else if f.dir == 2 then Quad(Point(x + 1, y, z), Point(x + 1, y, z + 1), Point(x + 1, y + 1, z + 1), Point(x + 1, y + 1, z))
    else if f.dir == 3 then Quad(Point(x, y, z + 1), Point(x, y, z), Point(x, y + 1, z), Point(x, y + 1, z + 1))
    else if f.dir == 4 then Quad(Point(x, y + 1, z), Point(x + 1, y + 1, z), Point(x + 1, y + 1, z + 1), Point(x, y + 1, z + 1))
    else Quad(Point(x, y, z + 1), Point(x + 1, y, z + 1), Point(x + 1, y, z), Point(x, y, z))
  }

  /** The 20 floats addFace appends: x, y, z, u, v for the four corners, the
      corners taking (u1,v1), (u2,v1), (u2,v2), (u1,v2). */
  function QuadValues(p1: Point, p2: Point, p3: Point, p4: Point, tile: AtlasTile): seq<MeshValue>
  {
    [Coord(p1.x), Coord(p1.y), Coord(p1.z), TexU(tile, false), TexV(tile, false),
     Coord(p2.x), Coord(p2.y), Coord(p2.z), TexU(tile, true), TexV(tile, false),
     Coord(p3.x), Coord(p3.y), Coord(p3.z), TexU(tile, true), TexV(tile, true),
     Coord(p4.x), Coord(p4.y), Coord(p4.z), TexU(tile, false), TexV(tile, true)]
  }

  function FaceValues(f: Face): seq<MeshValue>
  {
    var c := Corners(f);
    QuadValues(c.p1, c.p2, c.p3, c.p4, TextureForBlock(f.block, f.dir))
  }

  /** The two triangles of a quad whose first vertex is number base. */
  function QuadIndices(base: int): seq<int>
  {
    [base, base + 1, base + 2, base + 2, base + 3, base]
  }

  /** The vertex buffer for a face list, face after face. */
  function VerticesOf(fs: seq<Face>): seq<MeshValue>
  {
    if fs == [] then [] else VerticesOf(fs[..|fs| - 1]) + FaceValues(fs[|fs| - 1])
  }

  /** The index buffer for a face list: face k owns vertices 4k .. 4k+3. */
  function IndicesOf(fs: seq<Face>): seq<int>
  {
    if fs == [] then [] else IndicesOf(fs[..|fs| - 1]) + QuadIndices(4 * (|fs| - 1))
  }

  lemma AppendFace(fs: seq<Face>, f: Face)
    ensures VerticesOf(fs + [f]) == VerticesOf(fs) + FaceValues(f)
    ensures IndicesOf(fs + [f]) == IndicesOf(fs) + QuadIndices(4 * |fs|)
  {
    assert (fs + [f])[..|fs|] == fs;
  }

  /** With F faces the buffers hold 20F floats (5 per vertex) and 6F
      indices, and every index names one of the 4F vertices. */
  lemma {:induction false} MeshShape(fs: seq<Face>)
    ensures |VerticesOf(fs)| == 20 * |fs|
    ensures |IndicesOf(fs)| == 6 * |fs|
    ensures forall i :: 0 <= i < |IndicesOf(fs)| ==> 0 <= IndicesOf(fs)[i] < |VerticesOf(fs)| / 5
  {
    if fs != [] {
      var init := fs[..|fs| - 1];
      MeshShape(init);
      var ix := IndicesOf(fs);
      assert ix == IndicesOf(init) + QuadIndices(4 * (|fs| - 1));
      forall i | 0 <= i < |ix|
        ensures 0 <= ix[i] < 4 * |fs|
      {
        if i < |IndicesOf(init)| {
          assert ix[i] == IndicesOf(init)[i];
        }
      }
    }
  }

  /** The buffers after appending the quad of an exposed face with the
      corners Corners lists: the mesh one step further. */
  lemma EmitStep(g: seq<BlockType>, x: int, y: int, z: int, d: int,
                 p1: Point, p2: Point, p3: Point, p4: Point, vs: seq<MeshValue>, ix: seq<int>)
    requires |g| == CELLS && InBounds(x, y, z) && 0 <= d < 6
    requires CellAt(g, x, y, z) != Air && Exposed(g, x, y, z, d)
    requires Quad(p1, p2, p3, p4) == Corners(Face(x, y, z, d, CellAt(g, x, y, z)))
    requires vs == VerticesOf(FacesBefore(g, x, y, z, d)) && ix == IndicesOf(FacesBefore(g, x, y, z, d))
    ensures vs + QuadValues(p1, p2, p3, p4, TextureForBlock(CellAt(g, x, y, z), d)) == VerticesOf(FacesBefore(g, x, y, z, d + 1))
    ensures ix + QuadIndices(4 * |FacesBefore(g, x, y, z, d)|) == IndicesOf(FacesBefore(g, x, y, z, d + 1))
    ensures |FacesBefore(g, x, y, z, d + 1)| == |FacesBefore(g, x, y, z, d)| + 1
  {
    var f := Face(x, y, z, d, CellAt(g, x, y, z));
    assert FacesBefore(g, x, y, z, d + 1) == FacesBefore(g, x, y, z, d) + [f];
    AppendFace(FacesBefore(g, x, y, z, d), f);
  }

  /** A face whose neighbour is not air leaves the mesh as it is. */
  lemma SkipStep(g: seq<BlockType>, x: int, y: int, z: int, d: int)
    requires |g| == CELLS && InBounds(x, y, z) && 0 <= d < 6
    requires !Exposed(g, x, y, z, d)
    ensures FacesBefore(g, x, y, z, d + 1) == FacesBefore(g, x, y, z, d)
  {
    assert Emit(g, x, y, z, d) == [];
    assert FacesBefore(g, x, y, z, d + 1) == FacesBefore(g, x, y, z, d) + [];
  }
}
