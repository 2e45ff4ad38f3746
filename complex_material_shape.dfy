/**
 * ComplexMaterialShape as the class it is: two byte arrays written in place, a dictionary,
 * a short counter, the occupancy shape and the default material. Every method is proved
 * against the value-level operation of the same name in material_volume.dfy, through the
 * abstraction `Model()`.
 */
module ComplexMaterialShapes {
  import opened Wrappers
  import opened JavaInts
  import opened Shapes
  import opened Materials
  import opened Dictionaries
  import opened MaterialVolumes

  // ---------------------------------------------------------------------------
  // The state of flood's triple loop: the cells visited so far, x-major, then y, then z.

  /** Cell p comes before the loop position (x, y, z) in flood's visiting order. */
  predicate Before(p: Vec3, x: int, y: int, z: int) {
    p.x < x || (p.x == x && (p.y < y || (p.y == y && p.z < z)))
  }

  function Visited(s: Shape, k: int, x: int, y: int, z: int): bool
    requires 0 <= k < |s.bits|
  {
    Before(Coordinates(s.width, s.height, s.length, k), x, y, z)
  }

  /** Flood has begun writing: the first cell of a non-empty box lies before (x, y, z). */
  predicate Started(v: Volume, x: int, y: int, z: int) {
    |v.lower| > 0 && Before(Vec3(0, 0, 0), x, y, z)
  }

  /** The lower byte at index k once flood has written id at every cell before (x, y, z). */
  function PartialLow(v: Volume, id: int, x: int, y: int, z: int, k: int): Byte
    requires Wf(v) && 0 <= k < |v.lower|
  {
    if Visited(v.shape, k, x, y, z) then FloodLow(v.shape.bits[k], id) else v.lower[k]
  }

  /** The upper byte at index k at the same point (the plane is zero when freshly allocated). */
  function PartialHigh(v: Volume, id: int, x: int, y: int, z: int, k: int): Byte
    requires Wf(v) && 0 <= k < |v.lower|
  {
    if Visited(v.shape, k, x, y, z) then FloodHigh(v.shape.bits[k], id)
    else if v.upper.Some? then v.upper.value[k] else 0
  }

  /** The planes once flood has written id at every cell before (x, y, z). */
  function FloodPartial(v: Volume, id: int, x: int, y: int, z: int): (r: Volume)
    requires Wf(v)
    ensures Wf(r) && r.shape == v.shape && r.nextId == v.nextId && r.dictionary == v.dictionary
    ensures r.defaultMaterial == v.defaultMaterial
  {
    var n := |v.lower|;
    var lower := seq(n, k requires 0 <= k < n => PartialLow(v, id, x, y, z, k));
    var upper :=
      if v.nextId > 255 && Started(v, x, y, z) then Some(seq(n, k requires 0 <= k < n => PartialHigh(v, id, x, y, z, k)))
      else v.upper;
    v.(lower := lower, upper := upper)
  }

  /** Two loop positions that have visited the same cells leave the same planes. */
  lemma SamePartial(v: Volume, id: int, x1: int, y1: int, z1: int, x2: int, y2: int, z2: int)
    requires Wf(v)
    requires Started(v, x1, y1, z1) == Started(v, x2, y2, z2)
    requires forall k | 0 <= k < |v.lower| :: Visited(v.shape, k, x1, y1, z1) == Visited(v.shape, k, x2, y2, z2)
    ensures FloodPartial(v, id, x1, y1, z1) == FloodPartial(v, id, x2, y2, z2)
  {
    var r1, r2 := FloodPartial(v, id, x1, y1, z1), FloodPartial(v, id, x2, y2, z2);
    assert r1.lower == r2.lower;
    if r1.upper.Some? && v.nextId > 255 && Started(v, x1, y1, z1) {
      assert r1.upper.value == r2.upper.value;
    }
  }

  lemma FloodStart(v: Volume, id: int)
    requires Wf(v)
    ensures FloodPartial(v, id, 0, 0, 0) == v
  {
    var r := FloodPartial(v, id, 0, 0, 0);
    forall k | 0 <= k < |v.lower|
      ensures r.lower[k] == v.lower[k]
    {
      IndexOnto(v.shape, k);
    }
  }

  /** The coordinates of index k are the cell c exactly when k is c's index. */
  lemma CoordinatesAt(s: Shape, k: int, c: Vec3)
    requires 0 <= k < |s.bits| && InBox(s, c)
    ensures Coordinates(s.width, s.height, s.length, k) == c <==> k == Cell(s, c)
  {
    var p := Coordinates(s.width, s.height, s.length, k);
    if k == Cell(s, c) {
      IndexInjective(s.width, s.height, s.length, p, c);
    }
  }

  /** One iteration of the innermost loop moves the position one cell on. */
  lemma FloodStep(v: Volume, id: int, x: int, y: int, z: int)
    requires Wf(v) && InBox(v.shape, Vec3(x, y, z))
    ensures var c := Cell(v.shape, Vec3(x, y, z));
      WriteId(FloodPartial(v, id, x, y, z), c, if v.shape.bits[c] then id else -1)
        == FloodPartial(v, id, x, y, z + 1)
  {
    VisitedStep(v.shape, x, y, z);
    FloodStepLower(v, id, x, y, z);
    if v.nextId > 255 {
      FloodStepUpper(v, id, x, y, z);
    }
  }

  /** The cells visited at (x, y, z + 1) are those visited at (x, y, z) and (x, y, z) itself. */
  lemma VisitedStep(s: Shape, x: int, y: int, z: int)
    requires InBox(s, Vec3(x, y, z))
    ensures forall k | 0 <= k < |s.bits| ::
      Visited(s, k, x, y, z + 1) == (Visited(s, k, x, y, z) || k == Cell(s, Vec3(x, y, z)))
  {
    forall k | 0 <= k < |s.bits|
      ensures Visited(s, k, x, y, z + 1) == (Visited(s, k, x, y, z) || k == Cell(s, Vec3(x, y, z)))
    {
      CoordinatesAt(s, k, Vec3(x, y, z));
    }
  }

  lemma FloodStepLower(v: Volume, id: int, x: int, y: int, z: int)
    requires Wf(v) && InBox(v.shape, Vec3(x, y, z))
    requires forall k | 0 <= k < |v.lower| ::
      Visited(v.shape, k, x, y, z + 1) == (Visited(v.shape, k, x, y, z) || k == Cell(v.shape, Vec3(x, y, z)))
    ensures var c := Cell(v.shape, Vec3(x, y, z));
      WriteId(FloodPartial(v, id, x, y, z), c, if v.shape.bits[c] then id else -1).lower
        == FloodPartial(v, id, x, y, z + 1).lower
  {
  }

  lemma FloodStepUpper(v: Volume, id: int, x: int, y: int, z: int)
    requires Wf(v) && InBox(v.shape, Vec3(x, y, z)) && v.nextId > 255
    requires forall k | 0 <= k < |v.lower| ::
      Visited(v.shape, k, x, y, z + 1) == (Visited(v.shape, k, x, y, z) || k == Cell(v.shape, Vec3(x, y, z)))
    ensures var c := Cell(v.shape, Vec3(x, y, z));
      WriteId(FloodPartial(v, id, x, y, z), c, if v.shape.bits[c] then id else -1).upper
        == FloodPartial(v, id, x, y, z + 1).upper
  {
    var c := Cell(v.shape, Vec3(x, y, z));
    var w := WriteId(FloodPartial(v, id, x, y, z), c, if v.shape.bits[c] then id else -1);
    var after := FloodPartial(v, id, x, y, z + 1);
    assert Started(v, x, y, z + 1);
    assert w.upper.value == after.upper.value;
  }

  /** Leaving the innermost loop: (x, y, L) and (x, y + 1, 0) have visited the same cells. */
  lemma FloodRowEnd(v: Volume, id: int, x: int, y: int)
    requires Wf(v) && 0 <= x && 0 <= y
    ensures FloodPartial(v, id, x, y, v.shape.length) == FloodPartial(v, id, x, y + 1, 0)
  {
    ZeroSide(v.shape.width, v.shape.height, v.shape.length);
    forall k | 0 <= k < |v.lower|
      ensures Visited(v.shape, k, x, y, v.shape.length) == Visited(v.shape, k, x, y + 1, 0)
    {
    }
    SamePartial(v, id, x, y, v.shape.length, x, y + 1, 0);
  }

  /** Leaving the middle loop: (x, H, 0) and (x + 1, 0, 0) have visited the same cells. */
  lemma FloodLayerEnd(v: Volume, id: int, x: int)
    requires Wf(v) && 0 <= x
    ensures FloodPartial(v, id, x, v.shape.height, 0) == FloodPartial(v, id, x + 1, 0, 0)
  {
    ZeroSide(v.shape.width, v.shape.height, v.shape.length);
    forall k | 0 <= k < |v.lower|
      ensures Visited(v.shape, k, x, v.shape.height, 0) == Visited(v.shape, k, x + 1, 0, 0)
    {
    }
    SamePartial(v, id, x, v.shape.height, 0, x + 1, 0, 0);
  }

  /** Leaving the outer loop: every cell was visited, which is flood's specification. */
  lemma FloodEnd(v: Volume, m: Material)
    requires Wf(v)
    ensures var (v1, id) := Register(v, m);
      FloodPartial(v1, id, v1.shape.width, 0, 0) == Flood(v, m)
  {
    var (v1, id) := Register(v, m);
    var r := FloodPartial(v1, id, v1.shape.width, 0, 0);
    var f := Flood(v, m);
    ZeroSide(v.shape.width, v.shape.height, v.shape.length);
    forall k | 0 <= k < |v.lower|
      ensures Visited(v1.shape, k, v1.shape.width, 0, 0)
    {
    }
    assert r.lower == f.lower;
    if v1.nextId > 255 && |v.lower| > 0 {
      assert r.upper.value == f.upper.value;
    }
  }

  // ---------------------------------------------------------------------------

  class ComplexMaterialShape {
    var nextId: int
    var dictionary: Dictionary
    var materialsA: array<Byte>
    var materialsB: array?<Byte>
    var shape: Shape
    var defaultMaterial: Material

    /** The abstract value of this object. */
    function Model(): Volume
      reads this, materialsA, materialsB
    {
      Volume(shape, nextId, dictionary, materialsA[..],
             if materialsB == null then None else Some(materialsB[..]), defaultMaterial)
    }

    ghost predicate Valid()
      reads this, materialsA, materialsB
    {
      Wf(Model()) && materialsA != materialsB
    }

    /**
     * The constructor: a zeroed lower plane of W*L*H bytes, id 0 bound to the default,
     * `nextId` 1, then flood(default).
     */
    constructor (s: Shape, default: Material)
      ensures Valid() && Model() == Constructed(s, default)
      ensures fresh(materialsA) && materialsB == null
    {
      nextId := 1;
      dictionary := Single(0, default);
      materialsA := new Byte[s.width * s.length * s.height](_ => 0);
      materialsB := null;
      shape := s;
      defaultMaterial := default;
      new;
      assert materialsA[..] == Zeros(|s.bits|);
      Flood(default);
    }

    /** getIndex. */
    function IndexOf(x: int, y: int, z: int): (i: int)
      reads this
      ensures 0 <= x < shape.width && 0 <= y < shape.height && 0 <= z < shape.length ==>
        i == Cell(shape, Vec3(x, y, z))
    {
      y * (shape.width * shape.length) + z * shape.width + x
    }

    /** The private `get`. */
    method ReadAt(i: int) returns (r: Outcome<int>)
      requires Valid() && 0 <= i < materialsA.Length
      ensures r == ReadId(Model(), i)
    {
      var ret := materialsA[i] as int;
      if nextId > 255 {
        if materialsB == null {
          return Thrown(NullPointer);
        }
        ret := Or(materialsA[i], materialsB[i]) as int;
      }
      return Ok(ret);
    }

    /** The private `set`. */
    method WriteAt(i: int, data: int)
      requires Valid() && 0 <= i < materialsA.Length
      modifies this, materialsA, materialsB
      ensures Valid() && Model() == WriteId(old(Model()), i, data)
      ensures materialsA == old(materialsA)
      ensures old(materialsB) != null ==> materialsB == old(materialsB)
      ensures old(materialsB) == null && materialsB != null ==> fresh(materialsB)
    {
      materialsA[i] := LowByte(data);
      if nextId > 255 {
        if materialsB == null {
          materialsB := new Byte[materialsA.Length](_ => 0);
          assert materialsB[..] == Zeros(materialsA.Length);
        }
        materialsB[i] := HighByte(data);
      }
    }

    /** getOrRegisterMaterial. */
    method GetOrRegisterMaterial(m: Material) returns (id: int)
      requires Valid()
      modifies this
      ensures Valid() && (Model(), id) == Register(old(Model()), m)
      ensures materialsA == old(materialsA) && materialsB == old(materialsB)
    {
      if m in dictionary.byMaterial {
        return dictionary.byMaterial[m];
      }
      id := nextId;
      nextId := ShortWrap(nextId + 1);
      dictionary := Put(dictionary, id, m).value;
    }

    /** getMaterial. */
    method GetMaterial(x: int, y: int, z: int, relative: bool) returns (r: Outcome<Option<Material>>)
      requires Valid()
      ensures r == MaterialVolumes.GetMaterial(Model(), x, y, z, relative)
    {
      var isSet := Get(shape, x, y, z, relative);
      if isSet.Thrown? {
        return Thrown(isSet.fault);
      }
      if !isSet.value {
        return Ok(None);
      }
      ghost var v := Model();
      var i := IndexOf(x, y, z);
      assert i == MaterialVolumes.IndexOf(v, x, y, z);
      if !(0 <= i < materialsA.Length) {
        return Thrown(IndexOutOfBounds);
      }
      var raw := ReadAt(i);
      if raw.Thrown? {
        return Thrown(raw.fault);
      }
      if raw.value == -1 {
        // the private get never yields -1: the lazy write of the default is unreachable
        assert false;
      }
      if raw.value in dictionary.byId {
        r := Ok(Some(dictionary.byId[raw.value]));
      } else {
        r := Thrown(NullPointer);
      }
      assert r == Lookup(v, raw.value);
    }

    /** setMaterial. */
    method SetMaterial(x: int, y: int, z: int, relative: bool, m: Material) returns (r: Outcome<()>)
      requires Valid()
      modifies this, materialsA, materialsB
      ensures Valid() && Effect(Model(), r) == MaterialVolumes.SetMaterial(old(Model()), x, y, z, relative, m)
      ensures materialsA == old(materialsA)
      ensures old(materialsB) != null ==> materialsB == old(materialsB)
      ensures old(materialsB) == null && materialsB != null ==> fresh(materialsB)
    {
      var p := Resolve(shape, x, y, z, relative);
      if !InBox(shape, p) {
        return Thrown(IndexOutOfBounds);
      }
      var id := GetOrRegisterMaterial(m);
      WriteAt(IndexOf(p.x, p.y, p.z), id);
      shape := Assign(shape, p, true);
      return Ok(());
    }

    /** unsetMaterial. */
    method UnsetMaterial(x: int, y: int, z: int, relative: bool) returns (r: Outcome<()>)
      requires Valid()
      modifies this, materialsA, materialsB
      ensures Valid() && Effect(Model(), r) == MaterialVolumes.UnsetMaterial(old(Model()), x, y, z, relative)
    {
      var p := Resolve(shape, x, y, z, relative);
      if !InBox(shape, p) {
        return Thrown(IndexOutOfBounds);
      }
      WriteAt(IndexOf(p.x, p.y, p.z), -1);
      shape := Assign(shape, p, false);
      return Ok(());
    }

    /** The public set(x, y, z, relative): the shape's cell only. */
    method MarkCell(x: int, y: int, z: int, relative: bool) returns (r: Outcome<()>)
      requires Valid()
      modifies this
      ensures Valid() && Effect(Model(), r) == MaterialVolumes.MarkCell(old(Model()), x, y, z, relative)
    {
      var s := Shapes.Set(shape, x, y, z, relative);
      if s.Thrown? {
        return Thrown(s.fault);
      }
      shape := s.value;
      return Ok(());
    }

    /** flood: the triple loop over x, y, z. */
    method Flood(m: Material)
      requires Valid()
      modifies this, materialsA, materialsB
      ensures Valid() && Model() == MaterialVolumes.Flood(old(Model()), m)
      ensures materialsA == old(materialsA)
      ensures old(materialsB) != null ==> materialsB == old(materialsB)
      ensures old(materialsB) == null && materialsB != null ==> fresh(materialsB)
    {
      ghost var v0 := Model();
      var id := GetOrRegisterMaterial(m);
      ghost var v1 := Model();
      FloodStart(v1, id);
      var x := 0;
      while x < shape.width
        invariant 0 <= x <= shape.width && shape == v1.shape
        invariant Valid() && Model() == FloodPartial(v1, id, x, 0, 0)
        invariant materialsA == old(materialsA)
        invariant old(materialsB) != null ==> materialsB == old(materialsB)
        invariant old(materialsB) == null && materialsB != null ==> fresh(materialsB)
      {
        FloodColumn(v1, id, x);
        FloodLayerEnd(v1, id, x);
        x := x + 1;
      }
      FloodEnd(v0, m);
    }

    /** The y loop of flood over column x. */
    method FloodColumn(ghost v1: Volume, id: int, x: int)
      requires Valid() && MaterialVolumes.Wf(v1) && shape == v1.shape && 0 <= x < shape.width
      requires Model() == FloodPartial(v1, id, x, 0, 0)
      modifies this, materialsA, materialsB
      ensures Valid() && shape == v1.shape && Model() == FloodPartial(v1, id, x, shape.height, 0)
      ensures materialsA == old(materialsA)
      ensures old(materialsB) != null ==> materialsB == old(materialsB)
      ensures old(materialsB) == null && materialsB != null ==> fresh(materialsB)
    {
      var y := 0;
      while y < shape.height
        invariant 0 <= y <= shape.height && shape == v1.shape
        invariant Valid() && Model() == FloodPartial(v1, id, x, y, 0)
        invariant materialsA == old(materialsA)
        invariant old(materialsB) != null ==> materialsB == old(materialsB)
        invariant old(materialsB) == null && materialsB != null ==> fresh(materialsB)
      {
        FloodRow(v1, id, x, y);
        FloodRowEnd(v1, id, x, y);
        y := y + 1;
      }
    }

    /** The z loop of flood over row (x, y): set cells receive id, unset ones -1. */
    method FloodRow(ghost v1: Volume, id: int, x: int, y: int)
      requires Valid() && MaterialVolumes.Wf(v1) && shape == v1.shape
      requires 0 <= x < shape.width && 0 <= y < shape.height
      requires Model() == FloodPartial(v1, id, x, y, 0)
      modifies this, materialsA, materialsB
      ensures Valid() && shape == v1.shape && Model() == FloodPartial(v1, id, x, y, shape.length)
      ensures materialsA == old(materialsA)
      ensures old(materialsB) != null ==> materialsB == old(materialsB)
      ensures old(materialsB) == null && materialsB != null ==> fresh(materialsB)
    {
      var z := 0;
      while z < shape.length
        invariant 0 <= z <= shape.length && shape == v1.shape
        invariant Valid() && Model() == FloodPartial(v1, id, x, y, z)
        invariant materialsA == old(materialsA)
        invariant old(materialsB) != null ==> materialsB == old(materialsB)
        invariant old(materialsB) == null && materialsB != null ==> fresh(materialsB)
      {
        FloodStep(v1, id, x, y, z);
        if Get(shape, x, y, z, false).value {
          WriteAt(IndexOf(x, y, z), id);
        } else {
          WriteAt(IndexOf(x, y, z), -1);
        }
        z := z + 1;
      }
    }

    /** reset: flood with the default material. */
    method Reset()
      requires Valid()
      modifies this, materialsA, materialsB
      ensures Valid() && Model() == MaterialVolumes.Flood(old(Model()), old(defaultMaterial))
    {
      Flood(defaultMaterial);
    }

    /** Arrays.fill(a, from, to, b), with its range checks. */
    static method FillRange(a: array<Byte>, from: int, to: int, b: Byte) returns (r: Outcome<()>)
      modifies a
      ensures r == if from > to then Thrown(IllegalArgument)
        else if from < 0 || to > a.Length then Thrown(IndexOutOfBounds)
        else Ok(())
      ensures r.Ok? ==> a[..] == Fill(old(a[..]), from, to, b)
      ensures r.Thrown? ==> a[..] == old(a[..])
    {
      if from > to {
        return Thrown(IllegalArgument);
      }
      if from < 0 || to > a.Length {
        return Thrown(IndexOutOfBounds);
      }
      forall i | from <= i < to {
        a[i] := b;
      }
      return Ok(());
    }

    /** setHorizontalLayer. */
    method SetHorizontalLayer(m: Material, y: int, height: int) returns (r: Outcome<()>)
      requires Valid()
      modifies this, materialsA, materialsB
      ensures Valid() && Effect(Model(), r) == MaterialVolumes.SetHorizontalLayer(old(Model()), m, y, height)
    {
      var id := GetOrRegisterMaterial(m);
      var startIndex := IndexOf(0, y, 0);
      var endIndex := IndexOf(shape.width - 1, y + height - 1, shape.length - 1) + 1;
      r := FillLayers(id, startIndex, endIndex);
    }

    /** The Arrays.fill calls of setHorizontalLayer; the upper plane is allocated if need be. */
    method FillLayers(id: int, startIndex: int, endIndex: int) returns (r: Outcome<()>)
      requires Valid()
      modifies this, materialsA, materialsB
      ensures Valid() && Effect(Model(), r) == MaterialVolumes.FillLayers(old(Model()), id, startIndex, endIndex)
    {
      ghost var v := Model();
      r := FillRange(materialsA, startIndex, endIndex, LowByte(id));
      if r.Thrown? {
        assert Model() == v;
        return;
      }
      assert materialsA[..] == Fill(v.lower, startIndex, endIndex, LowByte(id));
      if nextId > 255 {
        if materialsB == null {
          materialsB := new Byte[materialsA.Length](_ => 0);
          assert materialsB[..] == Zeros(materialsA.Length);
        }
        ghost var plane := materialsB[..];
        r := FillRange(materialsB, startIndex, endIndex, HighByte(id));
        assert materialsB[..] == Fill(plane, startIndex, endIndex, HighByte(id));
        assert Model().upper == Some(Fill(plane, startIndex, endIndex, HighByte(id)));
        assert Model().lower == Fill(v.lower, startIndex, endIndex, LowByte(id));
      } else {
        assert Model() == v.(lower := Fill(v.lower, startIndex, endIndex, LowByte(id)));
      }
    }

    /** registerMaterial. */
    method RegisterMaterial(key: int, m: Material) returns (r: Outcome<()>)
      requires Valid() && IsShort(key)
      modifies this
      ensures Valid() && Effect(Model(), r) == MaterialVolumes.RegisterMaterial(old(Model()), key, m)
    {
      var d := Put(dictionary, key, m);
      if d.Thrown? {
        return Thrown(d.fault);
      }
      dictionary := d.value;
      nextId := if nextId > key then nextId else key;
      return Ok(());
    }

    /** hasExtraData. */
    method HasExtraData() returns (r: bool)
      requires Valid()
      ensures r == MaterialVolumes.HasExtraData(Model())
      ensures NextIdTight(Model()) ==> (r <==> exists k | k in Model().dictionary.byId :: k > 255)
    {
      return nextId > 256;
    }

    /** getMaxMaterialId. */
    method GetMaxMaterialId() returns (r: int)
      requires Valid()
      ensures r == MaxMaterialId(Model())
      ensures IdsBelow(Model()) ==> forall k | k in Model().dictionary.byId :: k <= r
      ensures NextIdTight(Model()) ==> r in Model().dictionary.byId
    {
      return nextId - 1;
    }

    /** The single-plane pass of setDefaultMaterial. */
    method SwapLower(other: int)
      requires Valid() && materialsB == null
      modifies materialsA
      ensures Valid() && Model() == SwapPlanes(old(Model()), other)
    {
      ghost var a0 := materialsA[..];
      var i := 0;
      while i < materialsA.Length
        invariant 0 <= i <= materialsA.Length
        invariant forall k | 0 <= k < i :: materialsA[k] == SwapLowerByte(a0[k], other)
        invariant forall k | i <= k < materialsA.Length :: materialsA[k] == a0[k]
      {
        if Signed(materialsA[i]) == LowInt(other) {
          materialsA[i] := 0;
        } else if materialsA[i] == 0 {
          materialsA[i] := LowByte(other);
        }
        i := i + 1;
      }
      assert materialsA[..] == SwapLowerPlane(a0, other);
    }

    /** The two-plane pass of setDefaultMaterial. */
    method SwapBoth(other: int)
      requires Valid() && materialsB != null
      modifies materialsA, materialsB
      ensures Valid() && Model() == SwapPlanes(old(Model()), other)
    {
      ghost var a0, b0 := materialsA[..], materialsB[..];
      var i := 0;
      while i < materialsA.Length
        invariant 0 <= i <= materialsA.Length
        invariant forall k | 0 <= k < i :: (materialsA[k], materialsB[k]) == SwapBothBytes(a0[k], b0[k], other)
        invariant forall k | i <= k < materialsA.Length :: materialsA[k] == a0[k] && materialsB[k] == b0[k]
      {
        if Signed(materialsA[i]) == LowInt(other) && Signed(materialsB[i]) == LowInt(other) {
          materialsA[i] := 0;
          materialsB[i] := 0;
        } else if materialsA[i] == 0 && materialsB[i] == 0 {
          materialsA[i] := LowByte(other);
          materialsB[i] := LowByte(other);
        }
        i := i + 1;
      }
      ghost var planes := SwapBothPlanes(a0, b0, other);
      assert materialsA[..] == planes.0 && materialsB[..] == planes.1;
    }

    /** setDefaultMaterial, as written. */
    method SetDefaultMaterial(m: Material) returns (r: Outcome<()>)
      requires Valid()
      modifies this, materialsA, materialsB
      ensures Valid() && Effect(Model(), r) == MaterialVolumes.SetDefaultMaterial(old(Model()), m)
    {
      if defaultMaterial == m {
        return Ok(());
      }
      var existing := defaultMaterial;
      defaultMaterial := m;
      var other := GetOrRegisterMaterial(m);
      ghost var registered := dictionary;
      var d := Put(dictionary, 0, m);
      if d.Thrown? {
        return Thrown(d.fault);
      }
      dictionary := d.value;
      d := Put(dictionary, other, existing);
      if d.Thrown? {
        return Thrown(d.fault);
      }
      dictionary := d.value;
      // inverse.put(material, 0) cannot succeed here, so the remaining put and the
      // byte passes (SwapBoth, SwapLower) are never reached
      ThirdPutRefused(registered, m, existing, other);
      d := InversePut(dictionary, m, 0);
      return Thrown(d.fault);
    }
  }
}
