/**
 * GetOverlappingChunksNode.exec: the chunks whose columns a shape placed at a target
 * block overlaps. The target is offset by minus the shape's origin; x runs from the offset
 * x while below offset x + width, z likewise over the length (the height is never
 * iterated); each column (x, z) asks the world for chunk (ix, 0, iz), and every
 * present chunk is collected once, in the order first met.
 *
 * The world is a map from chunk coordinates to its loaded chunks, and its chunk size a
 * pair of positive integers.
 */
module OverlappingChunks {
  import opened Wrappers
  import opened JavaInts
  import opened Shapes

  /** A chunk of the world, compared with equals. */
  type Chunk(==)

  /** The world as the node sees it: its loaded chunks by chunk coordinates, and getChunkSize()'s x and z. */
  datatype World = World(loaded: map<(int, int, int), Chunk>, sizeX: int, sizeZ: int)

  /** World.getChunk(x, y, z): the chunk at those chunk coordinates, or empty. */
  function GetChunk(w: World, x: int, y: int, z: int): (r: Option<Chunk>)
    ensures r.Some? <==> (x, y, z) in w.loaded
    ensures r.Some? ==> r.value == w.loaded[(x, y, z)]
  {
    if (x, y, z) in w.loaded then Some(w.loaded[(x, y, z)]) else None
  }

  predicate ValidWorld(w: World) {
    w.sizeX > 0 && w.sizeZ > 0
  }

  // ---------------------------------------------------------------------------
  // The chunk index.

  /** `(c < 0 ? c - size : c) / size` with Java's truncating division. */
  function ChunkIndex(c: int, size: int): int
    requires size > 0
  {
    TruncDiv(if c < 0 then c - size else c, size)
  }

  /**
   * The index is the floor of c / size for c >= 0 and for a negative c that is not a
   * multiple of size; a negative multiple of size is put one chunk lower.
   */
  lemma ChunkIndexFloor(c: int, size: int)
    requires size > 0
    ensures c >= 0 || c % size != 0 ==> ChunkIndex(c, size) == c / size
    ensures c < 0 && c % size == 0 ==> ChunkIndex(c, size) == c / size - 1
  {
    if c < 0 {
      var a := -c;
      var k, r := a / size, a % size;
      assert a == k * size + r;
      var g := (a + size) / size;
      assert a + size == g * size + (a + size) % size;
      assert a + size == (k + 1) * size + r;
      DivModUnique(g, (a + size) % size, k + 1, r, size);
      assert ChunkIndex(c, size) == -k - 1;
      if r == 0 {
        assert c == (-k) * size + 0;
        DivModUnique(c / size, c % size, -k, 0, size);
      } else {
        assert c == (-k - 1) * size + (size - r);
        DivModUnique(c / size, c % size, -k - 1, size - r, size);
      }
    }
  }

  /** As written, column -16 of 16-wide chunks is given chunk -2, which covers columns -32 .. -17. */
  lemma NegativeMultipleMisplaced()
    ensures ChunkIndex(-16, 16) == -2
    ensures !(-2 * 16 <= -16 < -1 * 16)
  {
  }

  /** The evidently intended index: floor division, the chunk that holds column c. */
  function ChunkIndexIntended(c: int, size: int): int
    requires size > 0
  {
    c / size
  }

  /** The intended index names the chunk whose columns contain c, for every c. */
  lemma ChunkIndexIntendedContains(c: int, size: int)
    requires size > 0
    ensures ChunkIndexIntended(c, size) * size <= c < (ChunkIndexIntended(c, size) + 1) * size
  {
    var q := c / size;
    assert c == q * size + c % size;
    assert (q + 1) * size == q * size + size;
  }

  /** The intended index agrees with the written one except at negative multiples of the size. */
  lemma IntendedDiffersOnlyAtNegativeMultiples(c: int, size: int)
    requires size > 0
    ensures ChunkIndex(c, size) != ChunkIndexIntended(c, size) <==> c < 0 && c % size == 0
  {
    ChunkIndexFloor(c, size);
  }

  // ---------------------------------------------------------------------------
  // The sweep, as values.

  /** The chunk of column (x, z), if the world has it. */
  function ColumnChunk(w: World, x: int, z: int): Option<Chunk>
    requires ValidWorld(w)
  {
    GetChunk(w, ChunkIndex(x, w.sizeX), 0, ChunkIndex(z, w.sizeZ))
  }

  /** The chunk of an answer from getChunk, as a list of zero or one element. */
  function Present(c: Option<Chunk>): (r: seq<Chunk>)
    ensures c.None? <==> r == []
    ensures c.Some? ==> r == [c.value]
  {
    if c.Some? then [c.value] else []
  }

  /** The present chunks of columns (x, z0) .. (x, z0 + n - 1), with repetitions, in loop order. */
  function RowChunks(w: World, x: int, z0: int, n: nat): seq<Chunk>
    requires ValidWorld(w)
    decreases n
  {
    if n == 0 then [] else RowChunks(w, x, z0, n - 1) + Present(ColumnChunk(w, x, z0 + n - 1))
  }

  /** The present chunks of rows x0 .. x0 + n - 1, each over nz columns from z0, in loop order. */
  function SweepChunks(w: World, x0: int, z0: int, nz: nat, n: nat): seq<Chunk>
    requires ValidWorld(w)
    decreases n
  {
    if n == 0 then [] else SweepChunks(w, x0, z0, nz, n - 1) + RowChunks(w, x0 + n - 1, z0, nz)
  }

  /** `if (!chunks.contains(c)) chunks.add(c)` over s: the first occurrence of each element, in order. */
  function Dedup(s: seq<Chunk>): seq<Chunk>
    decreases |s|
  {
    if |s| == 0 then []
    else
      var r := Dedup(s[..|s| - 1]);
      if s[|s| - 1] in r then r else r + [s[|s| - 1]]
  }

  /** The index of the first occurrence of x in s. */
  function First(s: seq<Chunk>, x: Chunk): (i: nat)
    requires x in s
    ensures i < |s| && s[i] == x && x !in s[..i]
  {
    if s[0] == x then 0 else 1 + First(s[1..], x)
  }

  /** The collected list holds exactly the elements of s. */
  lemma {:induction false} DedupMembers(s: seq<Chunk>, x: Chunk)
    ensures x in Dedup(s) <==> x in s
    decreases |s|
  {
    if |s| > 0 {
      var init := s[..|s| - 1];
      DedupMembers(init, x);
      assert s == init + [s[|s| - 1]];
    }
  }

  /** The collected list holds no element twice. */
  lemma {:induction false} DedupDistinct(s: seq<Chunk>)
    ensures forall i, j | 0 <= i < j < |Dedup(s)| :: Dedup(s)[i] != Dedup(s)[j]
    decreases |s|
  {
    if |s| > 0 {
      DedupDistinct(s[..|s| - 1]);
    }
  }

  /** First occurrences in s only move when a new element is appended at its end. */
  lemma FirstOfPrefix(s: seq<Chunk>, x: Chunk)
    requires |s| > 0 && x in s[..|s| - 1]
    ensures First(s, x) == First(s[..|s| - 1], x)
  {
    var init := s[..|s| - 1];
    var i, k := First(s, x), First(init, x);
    assert s[k] == x && s[..k] == init[..k];
  }

  /** The collected list keeps the order in which its elements are first met in s. */
  lemma {:induction false} DedupKeepsFirstOrder(s: seq<Chunk>, i: int, j: int)
    requires 0 <= i < j < |Dedup(s)|
    ensures Dedup(s)[i] in s && Dedup(s)[j] in s
    ensures First(s, Dedup(s)[i]) < First(s, Dedup(s)[j])
    decreases |s|
  {
    var r := Dedup(s);
    DedupMembers(s, r[i]);
    DedupMembers(s, r[j]);
    var init := s[..|s| - 1];
    var r0 := Dedup(init);
    if j < |r0| {
      DedupKeepsFirstOrder(init, i, j);
      DedupMembers(init, r0[i]);
      DedupMembers(init, r0[j]);
      FirstOfPrefix(s, r0[i]);
      FirstOfPrefix(s, r0[j]);
    } else {
      assert r == r0 + [s[|s| - 1]] && r[j] == s[|s| - 1];
      DedupMembers(init, r[i]);
      DedupMembers(init, r[j]);
      FirstOfPrefix(s, r[i]);
      assert First(s, r[j]) == |s| - 1;
    }
  }

  /** Every chunk met in a row was reported for one of its columns. */
  lemma {:induction false} RowChunksSound(w: World, x: int, z0: int, n: nat, c: Chunk) returns (z: int)
    requires ValidWorld(w) && c in RowChunks(w, x, z0, n)
    ensures z0 <= z < z0 + n && ColumnChunk(w, x, z) == Some(c)
    decreases n
  {
    var prev := RowChunks(w, x, z0, n - 1);
    assert RowChunks(w, x, z0, n) == prev + Present(ColumnChunk(w, x, z0 + n - 1));
    if c in prev {
      z := RowChunksSound(w, x, z0, n - 1, c);
    } else {
      z := z0 + n - 1;
    }
  }

  /** Every chunk reported for a column of a row is met in that row. */
  lemma {:induction false} RowChunksComplete(w: World, x: int, z0: int, n: nat, z: int, c: Chunk)
    requires ValidWorld(w) && z0 <= z < z0 + n && ColumnChunk(w, x, z) == Some(c)
    ensures c in RowChunks(w, x, z0, n)
    decreases n
  {
    if z < z0 + n - 1 {
      RowChunksComplete(w, x, z0, n - 1, z, c);
    }
  }

  /** Every chunk met in the sweep was reported for a visited column. */
  lemma {:induction false} SweepChunksSound(w: World, x0: int, z0: int, nz: nat, n: nat, c: Chunk)
      returns (x: int, z: int)
    requires ValidWorld(w) && c in SweepChunks(w, x0, z0, nz, n)
    ensures x0 <= x < x0 + n && z0 <= z < z0 + nz && ColumnChunk(w, x, z) == Some(c)
    decreases n
  {
    var prev := SweepChunks(w, x0, z0, nz, n - 1);
    assert SweepChunks(w, x0, z0, nz, n) == prev + RowChunks(w, x0 + n - 1, z0, nz);
    if c in prev {
      x, z := SweepChunksSound(w, x0, z0, nz, n - 1, c);
    } else {
      x := x0 + n - 1;
      z := RowChunksSound(w, x, z0, nz, c);
    }
  }

  /** Every chunk reported for a visited column is met in the sweep. */
  lemma {:induction false} SweepChunksComplete(w: World, x0: int, z0: int, nz: nat, n: nat, x: int, z: int, c: Chunk)
    requires ValidWorld(w) && x0 <= x < x0 + n && z0 <= z < z0 + nz && ColumnChunk(w, x, z) == Some(c)
    ensures c in SweepChunks(w, x0, z0, nz, n)
    decreases n
  {
    if x < x0 + n - 1 {
      SweepChunksComplete(w, x0, z0, nz, n - 1, x, z, c);
    } else {
      RowChunksComplete(w, x, z0, nz, z, c);
    }
  }

  /** exec's inner-loop body: a present chunk is added unless it is already collected. */
  function Collect(chunks: seq<Chunk>, c: Option<Chunk>): (r: seq<Chunk>)
    ensures c.Some? && c.value !in chunks ==> r == chunks + [c.value]
    ensures c.None? || c.value in chunks ==> r == chunks
  {
    if c.Some? && c.value !in chunks then chunks + [c.value] else chunks
  }

  /** Collecting one more answer keeps the collected list equal to Dedup of everything met. */
  lemma CollectStep(s: seq<Chunk>, c: Option<Chunk>)
    ensures Dedup(s + Present(c)) == Collect(Dedup(s), c)
  {
    if c.Some? {
      assert (s + [c.value])[..|s|] == s;
    } else {
      assert s + [] == s;
    }
  }

  /** The last column of a row, after the chunks already met. */
  lemma RowStep(w: World, seen: seq<Chunk>, x: int, z0: int, n: nat)
    requires ValidWorld(w) && n > 0
    ensures Dedup(seen + RowChunks(w, x, z0, n))
      == Collect(Dedup(seen + RowChunks(w, x, z0, n - 1)), ColumnChunk(w, x, z0 + n - 1))
  {
    var row := RowChunks(w, x, z0, n - 1);
    var c := ColumnChunk(w, x, z0 + n - 1);
    assert seen + RowChunks(w, x, z0, n) == (seen + row) + Present(c);
    CollectStep(seen + row, c);
  }

  /** exec's collected list after columns (x, z0) .. (x, z0 + n - 1), starting from acc. */
  function RowCollect(w: World, x: int, z0: int, n: nat, acc: seq<Chunk>): seq<Chunk>
    requires ValidWorld(w)
    decreases n
  {
    if n == 0 then acc else Collect(RowCollect(w, x, z0, n - 1, acc), ColumnChunk(w, x, z0 + n - 1))
  }

  /** exec's collected list after rows x0 .. x0 + n - 1. */
  function SweepCollect(w: World, x0: int, z0: int, nz: nat, n: nat): seq<Chunk>
    requires ValidWorld(w)
    decreases n
  {
    if n == 0 then [] else RowCollect(w, x0 + n - 1, z0, nz, SweepCollect(w, x0, z0, nz, n - 1))
  }

  /** Collecting a row onto the deduplication of what was met is deduplicating both. */
  lemma {:induction false} RowCollectDedup(w: World, seen: seq<Chunk>, x: int, z0: int, n: nat)
    requires ValidWorld(w)
    ensures RowCollect(w, x, z0, n, Dedup(seen)) == Dedup(seen + RowChunks(w, x, z0, n))
    decreases n
  {
    if n == 0 {
      assert seen + RowChunks(w, x, z0, n) == seen;
    } else {
      RowCollectDedup(w, seen, x, z0, n - 1);
      RowStep(w, seen, x, z0, n);
    }
  }

  /** The collected list of the whole sweep is the deduplicated sweep. */
  lemma {:induction false} SweepCollectDedup(w: World, x0: int, z0: int, nz: nat, n: nat)
    requires ValidWorld(w)
    ensures SweepCollect(w, x0, z0, nz, n) == Dedup(SweepChunks(w, x0, z0, nz, n))
    decreases n
  {
    if n == 0 {
      assert SweepChunks(w, x0, z0, nz, n) == [];
    } else {
      SweepCollectDedup(w, x0, z0, nz, n - 1);
      SweepStepDedup(w, x0, z0, nz, n);
    }
  }

  /** The deduplicated sweep grows by collecting its last row. */
  lemma SweepStepDedup(w: World, x0: int, z0: int, nz: nat, n: nat)
    requires ValidWorld(w) && n > 0
    ensures Dedup(SweepChunks(w, x0, z0, nz, n))
      == RowCollect(w, x0 + n - 1, z0, nz, Dedup(SweepChunks(w, x0, z0, nz, n - 1)))
  {
    RowCollectDedup(w, SweepChunks(w, x0, z0, nz, n - 1), x0 + n - 1, z0, nz);
  }

  /**
   * exec: every chunk reported for a visited column, once, in the order first met (see
   * DedupMembers, DedupDistinct, DedupKeepsFirstOrder, SweepChunksSound
   * and SweepChunksComplete).
   */
  method Exec(shape: Shape, target: Vec3, w: World) returns (chunks: seq<Chunk>)
    requires ValidWorld(w)
    ensures var t := target.Sub(shape.origin);
      chunks == Dedup(SweepChunks(w, t.x, t.z, shape.length, shape.width))
  {
    var t := target.Sub(shape.origin);
    chunks := [];
    var x := t.x;
    while x < t.x + shape.width
      invariant t.x <= x <= t.x + shape.width
      invariant chunks == SweepCollect(w, t.x, t.z, shape.length, x - t.x)
    {
      chunks := CollectRow(w, x, t.z, shape.length, chunks);
      x := x + 1;
    }
    SweepCollectDedup(w, t.x, t.z, shape.length, shape.width);
  }

  /** The z loop of exec over the columns (x, z0) .. (x, z0 + length - 1). */
  method CollectRow(w: World, x: int, z0: int, length: nat, chunks: seq<Chunk>) returns (r: seq<Chunk>)
    requires ValidWorld(w)
    ensures r == RowCollect(w, x, z0, length, chunks)
  {
    r := chunks;
    var z := z0;
    while z < z0 + length
      invariant z0 <= z <= z0 + length
      invariant r == RowCollect(w, x, z0, z - z0, chunks)
    {
      var c := GetChunk(w, ChunkIndex(x, w.sizeX), 0, ChunkIndex(z, w.sizeZ));
      if c.Some? && c.value !in r {
        r := r + [c.value];
      }
      z := z + 1;
    }
  }
}
