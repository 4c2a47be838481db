/** The square of chunk coordinates the manager loads around a centre, listed
    x-major as getChunksInRange produces it. */
module ChunkRange {
  import opened Coords

  /** The coordinates (x, zFrom), (x, zFrom + 1), ..., (x, zFrom + n - 1). */
  function Row(x: int, zFrom: int, n: nat): seq<ChunkCoord>
  {
    if n == 0 then [] else Row(x, zFrom, n - 1) + [ChunkCoord(x, zFrom + n - 1)]
  }

  /** The first k rows of the square of radius range around center. */
  function Rows(center: ChunkCoord, range: nat, k: nat): seq<ChunkCoord>
  {
    if k == 0 then []
    else Rows(center, range, k - 1) + Row(center.x - range + k - 1, center.z - range, 2 * range + 1)
  }

  /** getChunksInRange: every coordinate of the square, rows of increasing x,
      each row of increasing z; nothing for a negative range. */
  function ChunksInRange(center: ChunkCoord, range: int): seq<ChunkCoord>
  {
    if range < 0 then [] else Rows(center, range, 2 * range + 1)
  }

  /** c lies within range of center on both axes. */
  predicate InSquare(c: ChunkCoord, center: ChunkCoord, range: int)
  {
    center.x - range <= c.x <= center.x + range && center.z - range <= c.z <= center.z + range
  }

  /** Strict x-major order: by x, then by z. */
  predicate XMajorBefore(a: ChunkCoord, b: ChunkCoord)
  {
    a.x < b.x || (a.x == b.x && a.z < b.z)
  }

  lemma {:induction false} RowFacts(x: int, zFrom: int, n: nat)
    ensures |Row(x, zFrom, n)| == n
    ensures forall i | 0 <= i < n :: Row(x, zFrom, n)[i] == ChunkCoord(x, zFrom + i)
  {
    if n > 0 {
      RowFacts(x, zFrom, n - 1);
    }
  }

  lemma {:induction false} RowsLength(center: ChunkCoord, range: nat, k: nat)
    ensures |Rows(center, range, k)| == k * (2 * range + 1)
  {
    if k > 0 {
      RowsLength(center, range, k - 1);
      RowFacts(center.x - range + k - 1, center.z - range, 2 * range + 1);
      assert (k - 1) * (2 * range + 1) + (2 * range + 1) == k * (2 * range + 1);
    }
  }

  lemma {:induction false} RowsMembership(center: ChunkCoord, range: nat, k: nat, c: ChunkCoord)
    ensures c in Rows(center, range, k) <==>
      center.x - range <= c.x < center.x - range + k && center.z - range <= c.z <= center.z + range
  {
    if k > 0 {
      RowsMembership(center, range, k - 1, c);
      var x := center.x - range + k - 1;
      var row := Row(x, center.z - range, 2 * range + 1);
      RowFacts(x, center.z - range, 2 * range + 1);
      assert Rows(center, range, k) == Rows(center, range, k - 1) + row;
      if c.x == x && center.z - range <= c.z <= center.z + range {
        assert row[c.z - (center.z - range)] == c;
      }
    }
  }

  lemma {:induction false} RowsOrdered(center: ChunkCoord, range: nat, k: nat)
    ensures forall i, j | 0 <= i < j < |Rows(center, range, k)| ::
      XMajorBefore(Rows(center, range, k)[i], Rows(center, range, k)[j])
  {
    if k > 0 {
      RowsOrdered(center, range, k - 1);
      var prefix := Rows(center, range, k - 1);
      var x := center.x - range + k - 1;
      var row := Row(x, center.z - range, 2 * range + 1);
      RowFacts(x, center.z - range, 2 * range + 1);
      var s := Rows(center, range, k);
      assert s == prefix + row;
      forall i, j | 0 <= i < j < |s|
        ensures XMajorBefore(s[i], s[j])
      {
        if j < |prefix| {
          assert s[i] == prefix[i] && s[j] == prefix[j];
        } else if i < |prefix| {
          RowsMembership(center, range, k - 1, prefix[i]);
          assert s[i] == prefix[i] && s[j] == row[j - |prefix|];
        } else {
          assert s[i] == row[i - |prefix|] && s[j] == row[j - |prefix|];
        }
      }
    }
  }

  /** The list has (2r+1)^2 entries, holds exactly the square, and is strictly
      increasing x-major, so no coordinate appears twice. */
  lemma ChunksInRangeProperties(center: ChunkCoord, range: int)
    ensures range < 0 ==> ChunksInRange(center, range) == []
    ensures range >= 0 ==> |ChunksInRange(center, range)| == (2 * range + 1) * (2 * range + 1)
    ensures forall c :: c in ChunksInRange(center, range) <==> InSquare(c, center, range)
    ensures forall i, j | 0 <= i < j < |ChunksInRange(center, range)| ::
      XMajorBefore(ChunksInRange(center, range)[i], ChunksInRange(center, range)[j])
  {
    if range >= 0 {
      var k := 2 * range + 1;
      assert ChunksInRange(center, range) == Rows(center, range, k);
      RowsLength(center, range, k);
      RowsOrdered(center, range, k);
      forall c
        ensures c in Rows(center, range, k) <==> InSquare(c, center, range)
      {
        RowsMembership(center, range, k, c);
      }
    }
  }

  /** Strict x-major order rules out repeats. */
  lemma XMajorDistinct(s: seq<ChunkCoord>)
    requires forall i, j | 0 <= i < j < |s| :: XMajorBefore(s[i], s[j])
    ensures forall i, j | 0 <= i < |s| && 0 <= j < |s| && i != j :: s[i] != s[j]
  {
    forall i, j | 0 <= i < |s| && 0 <= j < |s| && i != j
      ensures s[i] != s[j]
    {
      if i < j {
        assert XMajorBefore(s[i], s[j]);
      } else {
        assert XMajorBefore(s[j], s[i]);
      }
    }
  }

  /** The coordinates of s, in order, that are not keys of loaded: the load
      list update builds. */
  function NotLoaded(s: seq<ChunkCoord>, loaded: set<ChunkCoord>): (r: seq<ChunkCoord>)
    ensures forall c :: c in r <==> c in s && c !in loaded
    ensures |r| <= |s|
  {
    if s == [] then []
    else
      var rest := NotLoaded(s[..|s| - 1], loaded);
      assert s == s[..|s| - 1] + [s[|s| - 1]];
      if s[|s| - 1] !in loaded then rest + [s[|s| - 1]] else rest
  }
}
