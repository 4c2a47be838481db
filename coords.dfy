/** Chunk coordinates and the mapping from world space to (chunk, local cell).
    World positions are reals: the source's single-precision floats divided by
    the power of two CHUNK_SIZE lose nothing, so the real model is exact. */
module Coords {

  const CHUNK_SIZE: int := 16
  const RENDER_DISTANCE: int := 8
  const LOAD_DISTANCE: int := 10
  const UNLOAD_DISTANCE: int := 12

  /** A world-space position (a glm::vec3). */
  datatype Vec3 = Vec3(x: real, y: real, z: real)

  /** A chunk's place in the infinite XZ grid. */
  datatype ChunkCoord = ChunkCoord(x: int, z: int)

  /** ChunkCoord::operator==, compared field by field. */
  predicate SameCoord(a: ChunkCoord, b: ChunkCoord)
  {
    a.x == b.x && a.z == b.z
  }

  lemma SameCoordIsEquality(a: ChunkCoord, b: ChunkCoord)
    ensures SameCoord(a, b) <==> a == b
  {
  }

  /** ChunkCoord::distanceSquared in chunk-grid units: never negative, and
      zero only between a coordinate and itself. */
  function DistanceSquared(a: ChunkCoord, b: ChunkCoord): (d: int)
    ensures d >= 0
    ensures d == 0 <==> a == b
  {
    var dx, dz := a.x - b.x, a.z - b.z;
    assert dx * dx >= 0 && dz * dz >= 0;
    assert dx != 0 ==> dx * dx > 0;
    assert dz != 0 ==> dz * dz > 0;
    dx * dx + dz * dz
  }

  lemma {:induction false} DistanceProperties(a: ChunkCoord, b: ChunkCoord)
    ensures DistanceSquared(a, b) >= 0
    ensures DistanceSquared(a, b) == DistanceSquared(b, a)
    ensures DistanceSquared(a, b) == 0 <==> a == b
  {
    var dx, dz := a.x - b.x, a.z - b.z;
    assert dx * dx >= 0 && dz * dz >= 0;
    if dx != 0 {
      assert dx * dx > 0;
    }
    if dz != 0 {
      assert dz * dz > 0;
    }
  }

  /** The radii are nested: render inside load inside unload. */
  lemma RadiiNested()
    ensures RENDER_DISTANCE <= LOAD_DISTANCE <= UNLOAD_DISTANCE
    ensures RENDER_DISTANCE * RENDER_DISTANCE == 64
    ensures UNLOAD_DISTANCE * UNLOAD_DISTANCE == 144
  {
  }

  /** The load square is a Chebyshev square while unloading is Euclidean: the
      square's corner lies beyond the unload radius. */
  lemma {:induction false} LoadCornerBeyondUnload(center: ChunkCoord)
    ensures var corner := ChunkCoord(center.x + LOAD_DISTANCE, center.z + LOAD_DISTANCE);
      DistanceSquared(corner, center) == 200 > UNLOAD_DISTANCE * UNLOAD_DISTANCE
  {
    var corner := ChunkCoord(center.x + LOAD_DISTANCE, center.z + LOAD_DISTANCE);
    assert corner.x - center.x == 10 && corner.z - center.z == 10;
  }

  lemma {:induction false} SquareGrows(a: int, r: int)
    requires 0 <= r < a
    ensures r * r < a * a
  {
    assert r * r <= r * a by {
      assert r * (a - r) >= 0;
    }
    assert r * a < a * a by {
      assert (a - r) * a > 0;
    }
  }

  /** Inside the disc of radius r around b means inside the square of
      radius r around it. */
  lemma DiscInsideSquare(a: ChunkCoord, b: ChunkCoord, r: int)
    requires 0 <= r
    ensures DistanceSquared(a, b) <= r * r ==> -r <= a.x - b.x <= r && -r <= a.z - b.z <= r
  {
    var dx, dz := a.x - b.x, a.z - b.z;
    if dx > r || dx < -r || dz > r || dz < -r {
      OutsideSquareOutsideDisc(dx, dz, r);
    }
  }

  /** Outside the square of radius r around the origin means outside the
      disc of radius r too. */
  lemma {:induction false} OutsideSquareOutsideDisc(dx: int, dz: int, r: int)
    requires 0 <= r
    requires dx > r || dx < -r || dz > r || dz < -r
    ensures dx * dx + dz * dz > r * r
  {
    var a, b := if dx < 0 then -dx else dx, if dz < 0 then -dz else dz;
    assert dx * dx == a * a && dz * dz == b * b;
    if a > r {
      SquareGrows(a, r);
      assert b * b >= 0;
    } else {
      SquareGrows(b, r);
      assert a * a >= 0;
    }
  }

  /** The position (wx, y, wz) of a column's cell at integer height y. */
  function ColumnPoint(wx: real, y: int, wz: real): Vec3
  {
    Vec3(wx, y as real, wz)
  }

  /** The two's-complement bits of a 32-bit int widened to size_t. */
  function Word(n: int): bv64
  {
    (n % 0x1_0000_0000_0000_0000) as bv64
  }

  /** ChunkCoordHash: hash(x) ^ (hash(z) << 1), with std::hash<int> the identity
      widening of libstdc++. */
  function Hash(c: ChunkCoord): (h: bv64)
    ensures h & 1 == Word(c.x) & 1
  {
    Word(c.x) ^ (Word(c.z) << 1)
  }

  /** The shift leaves bit 0 to x alone, and the hash is a function of the
      coordinate's fields, so equal coordinates hash equally. */
  lemma HashProperties(a: ChunkCoord, b: ChunkCoord)
    ensures Hash(a) & 1 == Word(a.x) & 1
    ensures SameCoord(a, b) ==> Hash(a) == Hash(b)
  {
  }

  /** floor(w / CHUNK_SIZE): the chunk index of a world coordinate. */
  function ChunkIndex(w: real): int
  {
    (w / (CHUNK_SIZE as real)).Floor
  }

  /** worldToChunkCoord: floor division on both horizontal axes, so the
      chunk and the in-range local index recombine to the floor of the
      position. */
  function WorldToChunkCoord(p: Vec3): (c: ChunkCoord)
    ensures c.x * CHUNK_SIZE + LocalIndex(p.x) == p.x.Floor
    ensures c.z * CHUNK_SIZE + LocalIndex(p.z) == p.z.Floor
  {
    ChunkCoord(ChunkIndex(p.x), ChunkIndex(p.z))
  }

  /** floor(w) - chunk * CHUNK_SIZE: the cell inside the chunk. It always
      lies in [0, CHUNK_SIZE), negative coordinates included. */
  function LocalIndex(w: real): (l: int)
    ensures 0 <= l < CHUNK_SIZE
    ensures ChunkIndex(w) * CHUNK_SIZE + l == w.Floor
  {
    var c := ChunkIndex(w);
    assert (c as real) * 16.0 <= w;
    w.Floor - c * CHUNK_SIZE
  }

  /** The decomposition is the only one with a local index in range. */
  lemma {:induction false} DecompositionUnique(w: real, c: int, l: int)
    requires 0 <= l < CHUNK_SIZE && c * CHUNK_SIZE + l == w.Floor
    ensures c == ChunkIndex(w) && l == LocalIndex(w)
  {
    var c0, l0 := ChunkIndex(w), LocalIndex(w);
    assert (c - c0) * CHUNK_SIZE == l0 - l;
  }

  /** On integer coordinates the mapping is Euclidean division and remainder. */
  lemma {:induction false} IntegerDecomposition(n: int)
    ensures ChunkIndex(n as real) == n / CHUNK_SIZE
    ensures LocalIndex(n as real) == n % CHUNK_SIZE
  {
    assert (n as real).Floor == n;
    DecompositionUnique(n as real, n / CHUNK_SIZE, n % CHUNK_SIZE);
  }

  /** A C++ float-to-int cast: truncation toward zero. */
  function Trunc(r: real): int
  {
    if r >= 0.0 then r.Floor else -((-r).Floor)
  }

  lemma {:induction false} TruncProperties(r: real)
    ensures r >= 0.0 ==> Trunc(r) == r.Floor
    ensures r < 0.0 && r != r.Floor as real ==> Trunc(r) == r.Floor + 1
  {
    if r < 0.0 && r != r.Floor as real {
      assert (-r).Floor == -r.Floor - 1;
    }
  }
}
