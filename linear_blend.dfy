/**
 * The linear-blend filter operation: while a filter brush visits the neighbours of one
 * target voxel, the operation accumulates, per material, the summed distance of the
 * neighbours holding it, the number of neighbours and the largest distance; it then
 * names a winning material and is reset for the next voxel.
 *
 * Distances are reals given by a length function standing for Math.sqrt(dx*dx+dy*dy+dz*dz)
 * (non-negative, positive off the centre); the world is a function from block
 * coordinates to the material there; the iteration order of the weight map is a sequence
 * enumerating its keys once each.
 */
module LinearBlend {
  import opened Wrappers
  import opened Materials

  /** count, maxDistance and the material -> weight map. */
  datatype Tally = Tally(count: int, maxDistance: real, weights: map<Material, real>)

  /** The state the constructor and reset leave. */
  function Fresh(): Tally {
    Tally(0, 0.0, map[])
  }

  /** What the length function promises: the Euclidean length's sign behaviour. */
  ghost predicate IsLength(len: (int, int, int) -> real) {
    forall dx: int, dy: int, dz: int {:trigger len(dx, dy, dz)} ::
      len(dx, dy, dz) >= 0.0 && (dx != 0 || dy != 0 || dz != 0 ==> len(dx, dy, dz) > 0.0)
  }

  /** Maths.clamp(v, lo, hi). */
  function Clamp(v: int, lo: int, hi: int): (r: int)
    requires lo <= hi
    ensures lo <= r <= hi
    ensures lo <= v <= hi ==> r == v
  {
    if v < lo then lo else if v > hi then hi else v
  }

  function Max(a: real, b: real): (r: real)
    ensures r >= a && r >= b && (r == a || r == b)
  {
    if b > a then b else a
  }

  /** The block checkPosition reads for the offset (dx, dy, dz) from (x, y, z). */
  function Neighbour(world: (int, int, int) -> Material, x: int, y: int, z: int, dx: int, dy: int, dz: int): Material {
    world(x + dx, Clamp(y + dy, 0, 255), z + dz)
  }

  /**
   * checkPosition(x, y, z, dx, dy, dz, w, m): ignores the centre; otherwise re-reads the
   * world at (x+dx, clamp(y+dy, 0, 255), z+dz) -- not the material it was passed -- adds
   * the offset's length to that material's weight, counts the neighbour and raises
   * maxDistance.
   */
  function Check(t: Tally, len: (int, int, int) -> real, world: (int, int, int) -> Material,
                 x: int, y: int, z: int, dx: int, dy: int, dz: int): (r: Tally)
    ensures dx == 0 && dy == 0 && dz == 0 ==> r == t
    ensures !(dx == 0 && dy == 0 && dz == 0) ==>
      var mat := Neighbour(world, x, y, z, dx, dy, dz);
      && r.count == t.count + 1
      && r.maxDistance == Max(t.maxDistance, len(dx, dy, dz))
      && r.weights.Keys == t.weights.Keys + {mat}
      && r.weights[mat] == (if mat in t.weights then t.weights[mat] else 0.0) + len(dx, dy, dz)
      && (forall k | k in t.weights && k != mat :: r.weights[k] == t.weights[k])
  {
    if dx == 0 && dy == 0 && dz == 0 then t
    else
      var d := len(dx, dy, dz);
      var mat := Neighbour(world, x, y, z, dx, dy, dz);
      var w := if mat in t.weights then t.weights[mat] + d else d;
      Tally(t.count + 1, if d > t.maxDistance then d else t.maxDistance, t.weights[mat := w])
  }

  /**
   * What the accumulation keeps true: a non-negative count and maximum, positive
   * weights, and no weight above count * maxDistance (each neighbour adds at most the
   * maximum distance).
   */
  ghost predicate Bounded(t: Tally) {
    t.count >= 0 && t.maxDistance >= 0.0 && WeightsUnder(t.weights, Cap(t))
  }

  /** count * maxDistance: what the summed distances of the counted neighbours cannot exceed. */
  function Cap(t: Tally): real {
    t.count as real * t.maxDistance
  }

  ghost predicate WeightsUnder(weights: map<Material, real>, cap: real) {
    forall k | k in weights :: 0.0 < weights[k] <= cap
  }

  lemma FreshBounded()
    ensures Bounded(Fresh())
  {
  }

  lemma MulMono(c: real, a: real, b: real)
    requires 0.0 <= c && a <= b
    ensures c * a <= c * b
  {
  }

  /** One more neighbour, at distance d <= the new maximum, raises the cap by at least d. */
  lemma CapGrows(t: Tally, r: Tally, d: real)
    requires t.count >= 0 && t.maxDistance >= 0.0
    requires r.count == t.count + 1 && t.maxDistance <= r.maxDistance && 0.0 <= d <= r.maxDistance
    ensures 0.0 <= Cap(t) && Cap(t) + d <= Cap(r)
  {
    var c, m, m' := t.count as real, t.maxDistance, r.maxDistance;
    MulMono(c, 0.0, m);
    MulMono(c, m, m');
    assert Cap(r) == (c + 1.0) * m' == c * m' + m';
  }

  /** Adding d to one weight keeps every weight under a cap that grew by at least d. */
  lemma WeightsBelow(before: map<Material, real>, after: map<Material, real>, mat: Material,
                     d: real, cap: real, cap': real)
    requires WeightsUnder(before, cap)
    requires 0.0 < d && 0.0 <= cap && cap + d <= cap'
    requires after.Keys == before.Keys + {mat}
    requires after[mat] == (if mat in before then before[mat] else 0.0) + d
    requires forall k | k in before && k != mat :: after[k] == before[k]
    ensures WeightsUnder(after, cap')
  {
  }

  /** checkPosition keeps the tally bounded, so every score count*maxDistance - weight is >= 0. */
  lemma CheckBounded(t: Tally, len: (int, int, int) -> real, world: (int, int, int) -> Material,
                     x: int, y: int, z: int, dx: int, dy: int, dz: int)
    requires Bounded(t) && IsLength(len)
    ensures Bounded(Check(t, len, world, x, y, z, dx, dy, dz))
  {
    if !(dx == 0 && dy == 0 && dz == 0) {
      var r := Check(t, len, world, x, y, z, dx, dy, dz);
      var d := len(dx, dy, dz);
      assert d > 0.0;
      CapGrows(t, r, d);
      WeightsBelow(t.weights, r.weights, Neighbour(world, x, y, z, dx, dy, dz), d, Cap(t), Cap(r));
    }
  }

  // ---------------------------------------------------------------------------
  // getResult, as written.

  /** A HashMap iteration order: every key of the map exactly once. */
  ghost predicate Enumerates(keys: seq<Material>, weights: map<Material, real>) {
    && (forall i, j | 0 <= i < j < |keys| :: keys[i] != keys[j])
    && (forall k | k in weights :: k in keys)
    && (forall k | k in keys :: k in weights)
  }

  /** An iteration order that enumerates every map's keys once each. */
  ghost predicate ValidOrder(order: map<Material, real> -> seq<Material>) {
    forall w: map<Material, real> {:trigger order(w)} :: Enumerates(order(w), w)
  }

  /** The entry's score in the first loop: count * maxDistance - weight. */
  function Score(t: Tally, k: Material): real
    requires k in t.weights
  {
    t.count as real * t.maxDistance - t.weights[k]
  }

  /**
   * The first loop of getResult over `keys`: an entry whose score exceeds n becomes the
   * winner, and n takes the entry's WEIGHT (not its score).
   */
  function Scan(t: Tally, keys: seq<Material>): (r: (real, Option<Material>))
    requires forall k | k in keys :: k in t.weights
    ensures r.1.Some? ==> r.1.value in keys && r.0 == t.weights[r.1.value]
    ensures r.1.None? ==> r.0 == 0.0
    ensures r.1.None? ==> forall k | k in keys :: Score(t, k) <= 0.0
  {
    if |keys| == 0 then (0.0, None)
    else
      var (n, winner) := Scan(t, keys[..|keys| - 1]);
      var k := keys[|keys| - 1];
      if Score(t, k) > n then (t.weights[k], Some(k)) else (n, winner)
  }

  /** The second loop: some entry other than the winner has weight n (winner null matches none). */
  predicate HasTie(t: Tally, keys: seq<Material>, n: real, winner: Option<Material>)
    requires forall k | k in keys :: k in t.weights
  {
    exists i | 0 <= i < |keys| :: t.weights[keys[i]] == n && Some(keys[i]) != winner
  }

  /**
   * getResult: Optional.of(winner) without a tie, Optional.of(null) with one. Optional.of
   * rejects null, so a tie -- or no winner at all -- throws NullPointerException, and a
   * returned Optional is never empty.
   */
  function Result(t: Tally, keys: seq<Material>): (r: Outcome<Material>)
    requires forall k | k in keys :: k in t.weights
    ensures r.Ok? ==> r.value in keys
    ensures r.Thrown? ==> r.fault == NullPointer
    ensures |keys| == 0 ==> r == Thrown(NullPointer)
  {
    var (n, winner) := Scan(t, keys);
    if !HasTie(t, keys, n, winner) && winner.Some? then Ok(winner.value) else Thrown(NullPointer)
  }

  /**
   * The tie test compares with the winner's weight: a result is returned exactly when
   * some entry beat the running value and no other entry has the winner's weight.
   */
  lemma {:induction false} ResultExactly(t: Tally, keys: seq<Material>)
    requires forall k | k in keys :: k in t.weights
    ensures Result(t, keys).Ok? <==>
      && Scan(t, keys).1.Some?
      && forall i | 0 <= i < |keys| && keys[i] != Scan(t, keys).1.value ::
           t.weights[keys[i]] != t.weights[Scan(t, keys).1.value]
  {
    var (n, winner) := Scan(t, keys);
    if winner.Some? {
      assert n == t.weights[winner.value];
    }
  }

  // ---------------------------------------------------------------------------
  // Findings about getResult.

  /**
   * Two neighbours of equal weight make getResult throw in either iteration order,
   * although the comment promises that a tie makes no change.
   */
  lemma TieThrows(a: Material, b: Material)
    requires a != b
    ensures var t := Tally(2, 1.0, map[a := 1.0, b := 1.0]);
      Result(t, [a, b]) == Thrown(NullPointer) && Result(t, [b, a]) == Thrown(NullPointer)
  {
    var t := Tally(2, 1.0, map[a := 1.0, b := 1.0]);
    assert [a, b][..1] == [a] && [b, a][..1] == [b];
    assert [a][..0] == [] && [b][..0] == [];
    assert Scan(t, [a]) == (1.0, Some(a));
    assert Scan(t, [a, b]) == (1.0, Some(a));
    assert t.weights[[a, b][1]] == 1.0;
    assert Scan(t, [b]) == (1.0, Some(b));
    assert Scan(t, [b, a]) == (1.0, Some(b));
    assert t.weights[[b, a][1]] == 1.0;
  }

  /**
   * Because n holds the winner's weight, the winner depends on the map's iteration
   * order: three unit-distance neighbours, two of material a and one of b, give a when a
   * is visited first and b when b is.
   */
  lemma OrderDecides(a: Material, b: Material)
    requires a != b
    ensures var t := Tally(3, 1.0, map[a := 2.0, b := 1.0]);
      Result(t, [a, b]) == Ok(a) && Result(t, [b, a]) == Ok(b)
  {
    var t := Tally(3, 1.0, map[a := 2.0, b := 1.0]);
    assert [a, b][..1] == [a] && [b, a][..1] == [b];
    assert [a][..0] == [] && [b][..0] == [];
    assert Scan(t, [a]) == (2.0, Some(a));
    assert Scan(t, [a, b]) == (2.0, Some(a));
    assert !HasTie(t, [a, b], 2.0, Some(a));
    assert Scan(t, [b]) == (1.0, Some(b));
    assert Scan(t, [b, a]) == (1.0, Some(b));
    assert !HasTie(t, [b, a], 1.0, Some(b));
  }

  /** The tally of OrderDecides arises from three checkPosition calls. */
  lemma OrderDecidesReachable(a: Material, b: Material)
    requires a != b
    ensures var len := (dx: int, dy: int, dz: int) => if dx == 0 && dy == 0 && dz == 0 then 0.0 else 1.0;
      var world := (x: int, y: int, z: int) => if x == 1 then b else a;
      var t1 := Check(Fresh(), len, world, 0, 10, 0, 1, 0, 0);
      var t2 := Check(t1, len, world, 0, 10, 0, -1, 0, 0);
      Check(t2, len, world, 0, 10, 0, 0, 1, 0) == Tally(3, 1.0, map[a := 2.0, b := 1.0])
  {
    var len := (dx: int, dy: int, dz: int) => if dx == 0 && dy == 0 && dz == 0 then 0.0 else 1.0;
    var world := (x: int, y: int, z: int) => if x == 1 then b else a;
    var t1 := Check(Fresh(), len, world, 0, 10, 0, 1, 0, 0);
    assert t1 == Tally(1, 1.0, map[b := 1.0]);
    var t2 := Check(t1, len, world, 0, 10, 0, -1, 0, 0);
    assert t2 == Tally(2, 1.0, map[b := 1.0, a := 1.0]);
    var t3 := Check(t2, len, world, 0, 10, 0, 0, 1, 0);
    assert t3.weights == map[a := 2.0, b := 1.0];
  }

  /**
   * getResult as evidently intended: n follows the best SCORE, so the scan finds the
   * entry with the highest positive score.
   */
  function IntendedScan(t: Tally, keys: seq<Material>): (r: (real, Option<Material>))
    requires forall k | k in keys :: k in t.weights
    ensures r.0 >= 0.0
    ensures forall k | k in keys :: Score(t, k) <= r.0
    ensures r.1.Some? ==> r.1.value in keys && Score(t, r.1.value) == r.0 > 0.0
    ensures r.1.None? ==> r.0 == 0.0
  {
    if |keys| == 0 then (0.0, None)
    else
      var (n, winner) := IntendedScan(t, keys[..|keys| - 1]);
      var k := keys[|keys| - 1];
      assert forall j | j in keys :: j in keys[..|keys| - 1] || j == k;
      if Score(t, k) > n then (Score(t, k), Some(k)) else (n, winner)
  }

  /** The intended outcome: the unique best-scoring material, and no change on a tie. */
  function IntendedResult(t: Tally, keys: seq<Material>): Option<Material>
    requires forall k | k in keys :: k in t.weights
  {
    var (n, winner) := IntendedScan(t, keys);
    if winner.Some? && forall i | 0 <= i < |keys| && keys[i] != winner.value :: Score(t, keys[i]) != n
    then winner else None
  }

  /**
   * The intended result does not depend on the iteration order: it names k exactly when
   * k has a positive score that every other key's score stays strictly below.
   */
  lemma IntendedResultUnique(t: Tally, keys: seq<Material>, k: Material)
    requires forall j | j in keys :: j in t.weights
    ensures IntendedResult(t, keys) == Some(k) <==>
      && k in keys && Score(t, k) > 0.0
      && forall i | 0 <= i < |keys| && keys[i] != k :: Score(t, keys[i]) < Score(t, k)
  {
    var (n, winner) := IntendedScan(t, keys);
    if k in keys && Score(t, k) > 0.0 && forall i | 0 <= i < |keys| && keys[i] != k :: Score(t, keys[i]) < Score(t, k) {
      assert winner.Some?;
      var i :| 0 <= i < |keys| && keys[i] == winner.value;
      assert winner.value == k;
    }
  }

  /**
   * The corrected scan keeps the score as written, count * maxDistance - weight, so it
   * ranks materials by least summed distance, not by how often they occurred: with
   * twenty-five unit-distance neighbours of a and one of b, b wins in either order.
   */
  lemma IntendedPrefersNearer(a: Material, b: Material)
    requires a != b
    ensures var t := Tally(26, 1.0, map[a := 25.0, b := 1.0]);
      IntendedResult(t, [a, b]) == Some(b) && IntendedResult(t, [b, a]) == Some(b)
  {
    var t := Tally(26, 1.0, map[a := 25.0, b := 1.0]);
    assert Score(t, a) == 1.0 && Score(t, b) == 25.0;
    IntendedResultUnique(t, [a, b], b);
    IntendedResultUnique(t, [b, a], b);
  }

  // ---------------------------------------------------------------------------

  /** LinearBlendMaterialOperation: the accumulator a FilterBrush drives. */
  class LinearBlendMaterialOperation {
    var count: int
    var maxDistance: real
    var mats: map<Material, real>
    /** Stands for Math.sqrt(dx*dx + dy*dy + dz*dz). */
    const len: (int, int, int) -> real
    /** The HashMap's iteration order over the keys of a weight map. */
    const order: map<Material, real> -> seq<Material>

    function Model(): Tally
      reads this
    {
      Tally(count, maxDistance, mats)
    }

    /** The constructor resets the fresh object. */
    constructor (len: (int, int, int) -> real, order: map<Material, real> -> seq<Material>)
      ensures Model() == Fresh() && this.len == len && this.order == order
    {
      this.len := len;
      this.order := order;
      new;
      Reset();
    }

    /** checkPosition; the passed material is ignored and false is always returned. */
    method CheckPosition(x: int, y: int, z: int, dx: int, dy: int, dz: int,
                         world: (int, int, int) -> Material, m: Material) returns (r: bool)
      modifies this
      ensures Model() == Check(old(Model()), len, world, x, y, z, dx, dy, dz)
      ensures !r
    {
      if !(dx == 0 && dy == 0 && dz == 0) {
        var clampedY := Clamp(y + dy, 0, 255);
        var mat := world(x + dx, clampedY, z + dz);
        if mat in mats {
          mats := mats[mat := mats[mat] + len(dx, dy, dz)];
        } else {
          mats := mats[mat := len(dx, dy, dz)];
        }
        count := count + 1;
        maxDistance := if len(dx, dy, dz) > maxDistance then len(dx, dy, dz) else maxDistance;
      }
      return false;
    }

    /** getResult, iterating the map in its iteration order; it changes nothing. */
    method GetResult() returns (r: Outcome<Material>)
      requires ValidOrder(order)
      ensures r == Result(Model(), order(mats))
    {
      var keys := order(mats);
      assert Enumerates(keys, mats);
      ghost var t := Model();
      var n := 0.0;
      var winner: Option<Material> := None;
      var i := 0;
      while i < |keys|
        invariant 0 <= i <= |keys|
        invariant (n, winner) == Scan(t, keys[..i])
      {
        ghost var prefix := keys[..i + 1];
        assert prefix[..i] == keys[..i] && prefix[i] == keys[i];
        assert Scan(t, prefix) == if Score(t, keys[i]) > n then (t.weights[keys[i]], Some(keys[i])) else (n, winner);
        if Score(Model(), keys[i]) > n {
          winner := Some(keys[i]);
          n := mats[keys[i]];
        }
        i := i + 1;
      }
      assert keys[..i] == keys;
      var tie := false;
      i := 0;
      while i < |keys|
        invariant 0 <= i <= |keys|
        invariant !tie
        invariant forall j | 0 <= j < i :: !(mats[keys[j]] == n && Some(keys[j]) != winner)
      {
        if mats[keys[i]] == n && Some(keys[i]) != winner {
          tie := true;
          break;
        }
        i := i + 1;
      }
      assert tie == HasTie(t, keys, n, winner);
      if !tie {
        if winner.None? {
          return Thrown(NullPointer);
        }
        return Ok(winner.value);
      }
      return Thrown(NullPointer);
    }

    /** reset. */
    method Reset()
      modifies this
      ensures Model() == Fresh()
    {
      mats := map[];
      count := 0;
      maxDistance := 0.0;
    }
  }
}
