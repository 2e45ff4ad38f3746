/**
 * The occupancy shape wrapped by ComplexMaterialShape: a dense boolean grid of
 * width x height x length cells with an origin, whose accessors take a `relative`
 * flag that adds the origin before the cell is addressed. The grid uses the same
 * y-major layout as the material planes (ComplexMaterialShape.getIndex).
 */
module Shapes {
  import opened Wrappers

  datatype Vec3 = Vec3(x: int, y: int, z: int) {
    function Add(o: Vec3): Vec3 { Vec3(x + o.x, y + o.y, z + o.z) }
    function Sub(o: Vec3): Vec3 { Vec3(x - o.x, y - o.y, z - o.z) }
  }

  datatype Grid = Grid(width: nat, height: nat, length: nat, origin: Vec3, bits: seq<bool>)

  /** A grid whose bit set covers exactly its box. */
  type Shape = g: Grid | |g.bits| == g.width * g.height * g.length
    witness Grid(0, 0, 0, Vec3(0, 0, 0), [])

  /** `y * (width * length) + z * width + x` (ComplexMaterialShape.getIndex). */
  function Index(width: int, length: int, x: int, y: int, z: int): int {
    y * (width * length) + z * width + x
  }

  predicate InBox(s: Shape, p: Vec3) {
    0 <= p.x < s.width && 0 <= p.y < s.height && 0 <= p.z < s.length
  }

  function Size(s: Shape): nat {
    s.width * s.height * s.length
  }

  /** The index of an in-box cell. */
  function Cell(s: Shape, p: Vec3): (i: nat)
    requires InBox(s, p)
    ensures i < |s.bits|
  {
    IndexInRange(s.width, s.height, s.length, p.x, p.y, p.z);
    Index(s.width, s.length, p.x, p.y, p.z)
  }

  /** The cell addressed by (x, y, z), shifted by the origin when `relative` is set. */
  function Resolve(s: Shape, x: int, y: int, z: int, relative: bool): Vec3 {
    if relative then Vec3(x, y, z).Add(s.origin) else Vec3(x, y, z)
  }

  /** Shape.get: whether the addressed cell is set; an address outside the box fails fast. */
  function Get(s: Shape, x: int, y: int, z: int, relative: bool): (r: Outcome<bool>)
    ensures r.Ok? <==> InBox(s, Resolve(s, x, y, z, relative))
    ensures r.Ok? ==> r.value == s.bits[Cell(s, Resolve(s, x, y, z, relative))]
  {
    var p := Resolve(s, x, y, z, relative);
    if InBox(s, p) then Ok(s.bits[Cell(s, p)]) else Thrown(IndexOutOfBounds)
  }

  /** The shape with one in-box cell changed to `b`. */
  function Assign(s: Shape, p: Vec3, b: bool): (r: Shape)
    requires InBox(s, p)
    ensures r.width == s.width && r.height == s.height && r.length == s.length && r.origin == s.origin
    ensures r.bits == s.bits[Cell(s, p) := b]
  {
    s.(bits := s.bits[Cell(s, p) := b])
  }

  /** Shape.set: marks the addressed cell; an address outside the box fails fast. */
  function Set(s: Shape, x: int, y: int, z: int, relative: bool): (r: Outcome<Shape>)
    ensures r.Ok? <==> InBox(s, Resolve(s, x, y, z, relative))
    ensures r.Ok? ==> Get(r.value, x, y, z, relative) == Ok(true)
  {
    var p := Resolve(s, x, y, z, relative);
    if InBox(s, p) then Ok(Assign(s, p, true)) else Thrown(IndexOutOfBounds)
  }

  /** Shape.unset: clears the addressed cell; an address outside the box fails fast. */
  function Unset(s: Shape, x: int, y: int, z: int, relative: bool): (r: Outcome<Shape>)
    ensures r.Ok? <==> InBox(s, Resolve(s, x, y, z, relative))
    ensures r.Ok? ==> Get(r.value, x, y, z, relative) == Ok(false)
  {
    var p := Resolve(s, x, y, z, relative);
    if InBox(s, p) then Ok(Assign(s, p, false)) else Thrown(IndexOutOfBounds)
  }

  /** A cuboid of the given size with every cell set (CuboidShape). */
  function Cuboid(width: nat, height: nat, length: nat, origin: Vec3): (r: Shape)
    ensures r.width == width && r.height == height && r.length == length && r.origin == origin
    ensures forall i :: 0 <= i < |r.bits| ==> r.bits[i]
  {
    Grid(width, height, length, origin, seq(width * height * length, _ => true))
  }

  // ---------------------------------------------------------------------------
  // The y-major index is a bijection between the box and [0, width*height*length).

  lemma MulLeftMono(a: int, b: int, c: int)
    requires a <= b && 0 <= c
    ensures a * c <= b * c
  {
  }

  /** q*d + r is the unique decomposition with 0 <= r < d. */
  lemma DivModUnique(q1: int, r1: int, q2: int, r2: int, d: int)
    requires 0 <= r1 < d && 0 <= r2 < d
    requires q1 * d + r1 == q2 * d + r2
    ensures q1 == q2 && r1 == r2
  {
    if q1 < q2 {
      MulLeftMono(q1 + 1, q2, d);
      assert false;
    } else if q2 < q1 {
      MulLeftMono(q2 + 1, q1, d);
      assert false;
    }
  }

  lemma RowInRange(width: int, length: int, x: int, z: int)
    requires 0 <= x < width && 0 <= z < length
    ensures 0 <= z * width + x < width * length
  {
    MulLeftMono(z, length - 1, width);
    assert (length - 1) * width == width * length - width;
  }

  /** getIndex maps the box into [0, width*height*length). */
  lemma IndexInRange(width: nat, height: nat, length: nat, x: int, y: int, z: int)
    requires 0 <= x < width && 0 <= y < height && 0 <= z < length
    ensures 0 <= Index(width, length, x, y, z) < width * height * length
  {
    RowInRange(width, length, x, z);
    MulLeftMono(y, height - 1, width * length);
    assert (height - 1) * (width * length) == width * height * length - width * length;
  }

  /** getIndex is injective on the box. */
  lemma IndexInjective(width: nat, height: nat, length: nat, p: Vec3, q: Vec3)
    requires 0 <= p.x < width && 0 <= p.y < height && 0 <= p.z < length
    requires 0 <= q.x < width && 0 <= q.y < height && 0 <= q.z < length
    requires Index(width, length, p.x, p.y, p.z) == Index(width, length, q.x, q.y, q.z)
    ensures p == q
  {
    RowInRange(width, length, p.x, p.z);
    RowInRange(width, length, q.x, q.z);
    DivModUnique(p.y, p.z * width + p.x, q.y, q.z * width + q.x, width * length);
    DivModUnique(p.z, p.x, q.z, q.x, width);
  }

  lemma ZeroSide(width: nat, height: nat, length: nat)
    ensures width == 0 || height == 0 || length == 0 ==> width * height * length == 0
  {
  }

  lemma Regroup(y: int, z: int, x: int, width: int, length: int)
    ensures (y * length + z) * width + x == y * (width * length) + z * width + x
  {
  }

  /** The decomposition of an index into x, then z, then y. */
  lemma Decompose(width: nat, height: nat, length: nat, i: int)
    requires 0 <= i < width * height * length
    ensures width > 0 && length > 0
    ensures var row := i / width;
      var x, z, y := i % width, row % length, row / length;
      0 <= x < width && 0 <= y < height && 0 <= z < length &&
      Index(width, length, x, y, z) == i
  {
    ZeroSide(width, height, length);
    var x := i % width;
    var row := i / width;
    var z := row % length;
    var y := row / length;
    assert row >= 0;
    Regroup(y, z, x, width, length);
    assert i == y * (width * length) + z * width + x;
    if y >= height {
      MulLeftMono(height, y, width * length);
      RowInRange(width, length, x, z);
      assert false;
    }
  }

  /** The in-box cell that getIndex maps to `i`. */
  function Coordinates(width: nat, height: nat, length: nat, i: int): (p: Vec3)
    requires 0 <= i < width * height * length
    ensures 0 <= p.x < width && 0 <= p.y < height && 0 <= p.z < length
    ensures Index(width, length, p.x, p.y, p.z) == i
  {
    Decompose(width, height, length, i);
    Vec3(i % width, (i / width) / length, (i / width) % length)
  }

  /** Every index of the planes is the index of some cell of the box. */
  lemma IndexOnto(s: Shape, i: int)
    requires 0 <= i < |s.bits|
    ensures InBox(s, Coordinates(s.width, s.height, s.length, i))
    ensures Cell(s, Coordinates(s.width, s.height, s.length, i)) == i
  {
  }
}
