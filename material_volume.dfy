/**
 * The abstract state of a ComplexMaterialShape and what each of its operations does to
 * it, as functions on values. The class in complex_material_shape.dfy realises these
 * operations in place on byte arrays; the lemmas here state what the operations promise.
 *
 * A volume is an occupancy shape, a dictionary between short ids and materials, the
 * counter `nextId`, a lower byte plane and an optional upper byte plane (allocated lazily
 * once `nextId` exceeds 255), both indexed by getIndex.
 */
module MaterialVolumes {
  import opened Wrappers
  import opened JavaInts
  import opened Shapes
  import opened Materials
  import opened Dictionaries

  datatype Volume = Volume(
    shape: Shape,
    nextId: int,
    dictionary: Dictionary,
    lower: seq<Byte>,
    upper: Option<seq<Byte>>,
    defaultMaterial: Material)

  /** An operation's new state, and whether it returned or threw. */
  datatype Effect = Effect(after: Volume, outcome: Outcome<()>)

  ghost predicate Wf(v: Volume) {
    && IsShort(v.nextId)
    && Dictionaries.Valid(v.dictionary)
    && |v.lower| == |v.shape.bits|
    && (v.upper.Some? ==> |v.upper.value| == |v.lower|)
  }

  /** Every bound id lies below `nextId`. */
  ghost predicate IdsBelow(v: Volume) {
    forall k | k in v.dictionary.byId :: k < v.nextId
  }

  /** `nextId` is one greater than the largest bound id. */
  ghost predicate NextIdTight(v: Volume) {
    IdsBelow(v) && v.nextId - 1 in v.dictionary.byId
  }

  /** The id 0 names the default material, as construction leaves it. */
  ghost predicate DefaultBound(v: Volume) {
    0 in v.dictionary.byId && v.dictionary.byId[0] == v.defaultMaterial
  }

  /** getIndex(x, y, z). */
  function IndexOf(v: Volume, x: int, y: int, z: int): int {
    Index(v.shape.width, v.shape.length, x, y, z)
  }

  /** A plane's bytes with [from, to) overwritten by b (Arrays.fill). */
  function Fill(s: seq<Byte>, from: int, to: int, b: Byte): (r: seq<Byte>)
    ensures |r| == |s|
    ensures forall i | 0 <= i < |s| :: r[i] == if from <= i < to then b else s[i]
  {
    seq(|s|, i requires 0 <= i < |s| => if from <= i < to then b else s[i])
  }

  /** A freshly allocated plane: `new byte[n]`. */
  function Zeros(n: nat): (r: seq<Byte>)
    ensures |r| == n && forall i | 0 <= i < n :: r[i] == 0
  {
    seq(n, _ => 0)
  }

  // ---------------------------------------------------------------------------
  // The private accessors get(x, y, z) and set(x, y, z, data), at a plane index.

  /**
   * The private `get`: the lower byte, ORed with the upper byte (not shifted) once
   * `nextId` exceeds 255; reading a plane that was never allocated throws.
   */
  function ReadId(v: Volume, i: int): (r: Outcome<int>)
    requires Wf(v) && 0 <= i < |v.lower|
    ensures r.Ok? ==> 0 <= r.value < 256
    ensures r.Thrown? <==> v.nextId > 255 && v.upper.None?
    ensures v.nextId <= 255 ==> r == Ok(v.lower[i] as int)
  {
    if v.nextId > 255 then
      if v.upper.None? then Thrown(NullPointer)
      else Ok(Or(v.lower[i], v.upper.value[i]) as int)
    else Ok(v.lower[i] as int)
  }

  /**
   * The private `set`: the low byte of `data` goes to the lower plane; once `nextId`
   * exceeds 255 the upper plane is allocated if needed and receives bits 8..15.
   */
  function WriteId(v: Volume, i: int, data: int): (r: Volume)
    requires Wf(v) && 0 <= i < |v.lower|
    ensures Wf(r)
    ensures r.shape == v.shape && r.nextId == v.nextId && r.dictionary == v.dictionary
    ensures r.defaultMaterial == v.defaultMaterial
    ensures r.lower == v.lower[i := LowByte(data)]
    ensures v.nextId > 255 ==> r.upper.Some? && r.upper.value[i] == HighByte(data)
    ensures v.nextId > 255 ==> forall j | 0 <= j < |v.lower| && j != i ::
      r.upper.value[j] == if v.upper.Some? then v.upper.value[j] else 0
    ensures v.nextId <= 255 ==> r.upper == v.upper
  {
    var lower := v.lower[i := LowByte(data)];
    if v.nextId > 255 then
      var plane := if v.upper.None? then Zeros(|v.lower|) else v.upper.value;
      v.(lower := lower, upper := Some(plane[i := HighByte(data)]))
    else
      v.(lower := lower)
  }

  /** `Optional.of(materialDictionary.get(id))`: an unbound id gives null, and Optional.of throws. */
  function Lookup(v: Volume, id: int): (r: Outcome<Option<Material>>)
    ensures r.Ok? <==> id in v.dictionary.byId
    ensures r.Ok? ==> r.value == Some(v.dictionary.byId[id])
  {
    if id in v.dictionary.byId then Ok(Some(v.dictionary.byId[id])) else Thrown(NullPointer)
  }

  // ---------------------------------------------------------------------------
  // The dictionary.

  /**
   * getOrRegisterMaterial: a known material keeps its id; an unknown one receives
   * `nextId`, which then advances (as a Java short).
   */
  function Register(v: Volume, m: Material): (r: (Volume, int))
    requires Wf(v)
    ensures Wf(r.0)
    ensures r.0.shape == v.shape && r.0.lower == v.lower && r.0.upper == v.upper
    ensures r.0.defaultMaterial == v.defaultMaterial
    ensures r.1 in r.0.dictionary.byId && r.0.dictionary.byId[r.1] == m
    ensures m in v.dictionary.byMaterial ==> r.0 == v && r.1 == v.dictionary.byMaterial[m]
    ensures m !in v.dictionary.byMaterial ==>
      && r.1 == v.nextId
      && r.0.nextId == ShortWrap(v.nextId + 1)
      && r.0.dictionary.byId == v.dictionary.byId[v.nextId := m]
    ensures NextIdTight(v) && v.nextId < ShortMax ==> NextIdTight(r.0)
  {
    if m in v.dictionary.byMaterial then (v, v.dictionary.byMaterial[m])
    else
      var id := v.nextId;
      var d := Put(v.dictionary, id, m);
      (v.(nextId := ShortWrap(id + 1), dictionary := d.value), id)
  }

  /**
   * registerMaterial(key, material): binds key to material (refused when the material
   * is bound elsewhere) and raises `nextId` to `key` -- not to `key + 1`.
   */
  function RegisterMaterial(v: Volume, key: int, m: Material): (r: Effect)
    requires Wf(v) && IsShort(key)
    ensures Wf(r.after)
    ensures r.outcome.Thrown? <==> m in v.dictionary.byMaterial && v.dictionary.byMaterial[m] != key
    ensures r.outcome.Thrown? ==> r.after == v
    ensures r.outcome.Ok? ==>
      && r.after.dictionary.byId == v.dictionary.byId[key := m]
      && r.after.nextId == (if key > v.nextId then key else v.nextId)
      && r.after.lower == v.lower && r.after.upper == v.upper && r.after.shape == v.shape
  {
    match Put(v.dictionary, key, m)
    case Thrown(f) => Effect(v, Thrown(f))
    case Ok(d) => Effect(v.(dictionary := d, nextId := if v.nextId > key then v.nextId else key), Ok(()))
  }

  /**
   * hasExtraData: the upper plane is needed. While `nextId` is one past the largest
   * bound id, that is exactly when some bound id exceeds 255.
   */
  function HasExtraData(v: Volume): (r: bool)
    ensures r <==> MaxMaterialId(v) > 255
    ensures NextIdTight(v) ==> (r <==> exists k | k in v.dictionary.byId :: k > 255)
  {
    v.nextId > 256
  }

  /**
   * getMaxMaterialId: one less than the next id to hand out, which is the largest bound
   * id while `nextId` is one past it.
   */
  function MaxMaterialId(v: Volume): (r: int)
    ensures r + 1 == v.nextId
    ensures IdsBelow(v) ==> forall k | k in v.dictionary.byId :: k <= r
    ensures NextIdTight(v) ==> r in v.dictionary.byId
  {
    v.nextId - 1
  }

  // ---------------------------------------------------------------------------
  // Reading and writing single voxels.

  /**
   * getMaterial(x, y, z, relative): empty when the shape's cell is unset; otherwise the
   * material named by the id stored at getIndex(x, y, z). The `relative` flag is applied
   * to the shape test only, not to the plane index. The lazy write of id 0 when the
   * stored id is -1 never happens: ReadId is never negative (see SentinelMisread).
   */
  function GetMaterial(v: Volume, x: int, y: int, z: int, relative: bool): (r: Outcome<Option<Material>>)
    requires Wf(v)
    ensures Get(v.shape, x, y, z, relative) == Ok(false) ==> r == Ok(None)
    ensures r.Ok? && r.value.Some? ==> r.value.value in v.dictionary.byMaterial
  {
    match Get(v.shape, x, y, z, relative)
    case Thrown(f) => Thrown(f)
    case Ok(isSet) =>
      if !isSet then Ok(None)
      else
        var i := IndexOf(v, x, y, z);
        if !(0 <= i < |v.lower|) then Thrown(IndexOutOfBounds)
        else
          match ReadId(v, i)
          case Thrown(f) => Thrown(f)
          case Ok(raw) => if raw == -1 then Lookup(v, 0) else Lookup(v, raw)
  }

  /**
   * setMaterial(x, y, z, relative, material): resolves the cell, refuses one outside the
   * box before anything changes, then registers the material, stores its id and sets the
   * shape's cell.
   */
  function SetMaterial(v: Volume, x: int, y: int, z: int, relative: bool, m: Material): (r: Effect)
    requires Wf(v)
    ensures Wf(r.after)
    ensures r.outcome.Ok? <==> InBox(v.shape, Resolve(v.shape, x, y, z, relative))
    ensures r.outcome.Thrown? ==> r.outcome.fault == IndexOutOfBounds && r.after == v
    ensures r.after.shape.width == v.shape.width && r.after.shape.height == v.shape.height
    ensures r.after.shape.length == v.shape.length && r.after.shape.origin == v.shape.origin
    ensures r.outcome.Ok? ==>
      && r.after.dictionary == Register(v, m).0.dictionary && r.after.nextId == Register(v, m).0.nextId
      && (r.after.upper.Some? ==> v.upper.Some? || Register(v, m).0.nextId > 255)
  {
    var p := Resolve(v.shape, x, y, z, relative);
    if !InBox(v.shape, p) then Effect(v, Thrown(IndexOutOfBounds))
    else
      var (v1, id) := Register(v, m);
      var v2 := WriteId(v1, Cell(v.shape, p), id);
      Effect(v2.(shape := Assign(v2.shape, p, true)), Ok(()))
  }

  /**
   * unsetMaterial(x, y, z, relative): resolves the cell, refuses one outside the box
   * before anything changes, then stores the sentinel id -1 and clears the shape's cell.
   */
  function UnsetMaterial(v: Volume, x: int, y: int, z: int, relative: bool): (r: Effect)
    requires Wf(v)
    ensures Wf(r.after)
    ensures r.outcome.Ok? <==> InBox(v.shape, Resolve(v.shape, x, y, z, relative))
    ensures r.outcome.Thrown? ==> r.outcome.fault == IndexOutOfBounds && r.after == v
    ensures r.after.dictionary == v.dictionary && r.after.nextId == v.nextId
  {
    var p := Resolve(v.shape, x, y, z, relative);
    if !InBox(v.shape, p) then Effect(v, Thrown(IndexOutOfBounds))
    else
      var v2 := WriteId(v, Cell(v.shape, p), -1);
      Effect(v2.(shape := Assign(v2.shape, p, false)), Ok(()))
  }

  /** The public set(x, y, z, relative): marks the shape's cell, leaving the planes alone. */
  function MarkCell(v: Volume, x: int, y: int, z: int, relative: bool): (r: Effect)
    requires Wf(v)
    ensures Wf(r.after)
    ensures r.outcome.Ok? <==> InBox(v.shape, Resolve(v.shape, x, y, z, relative))
    ensures r.outcome.Ok? ==> Get(r.after.shape, x, y, z, relative) == Ok(true)
    ensures r.after.lower == v.lower && r.after.upper == v.upper && r.after.dictionary == v.dictionary
  {
    match Shapes.Set(v.shape, x, y, z, relative)
    case Thrown(f) => Effect(v, Thrown(f))
    case Ok(s) => Effect(v.(shape := s), Ok(()))
  }

  // ---------------------------------------------------------------------------
  // Bulk writes.

  /** The lower-plane byte flood writes at a cell: the id where the shape is set, else -1. */
  function FloodLow(bit: bool, id: int): Byte {
    if bit then LowByte(id) else LowByte(-1)
  }

  function FloodHigh(bit: bool, id: int): Byte {
    if bit then HighByte(id) else HighByte(-1)
  }

  /**
   * flood(material): registers the material, then writes its id at every set cell and
   * the sentinel -1 at every unset cell (the upper plane too once `nextId` exceeds 255).
   */
  function Flood(v: Volume, m: Material): (r: Volume)
    requires Wf(v)
    ensures Wf(r)
    ensures r.shape == v.shape && r.defaultMaterial == v.defaultMaterial
    ensures r.dictionary == Register(v, m).0.dictionary && r.nextId == Register(v, m).0.nextId
  {
    var (v1, id) := Register(v, m);
    var n := |v1.lower|;
    var lower := seq(n, i requires 0 <= i < n => FloodLow(v1.shape.bits[i], id));
    var upper :=
      if v1.nextId > 255 && n > 0 then Some(seq(n, i requires 0 <= i < n => FloodHigh(v1.shape.bits[i], id)))
      else v1.upper;
    v1.(lower := lower, upper := upper)
  }

  /** The two fill bounds of setHorizontalLayer: getIndex(0, y, 0) and getIndex(W-1, y+h-1, L-1) + 1. */
  function LayerStart(v: Volume, y: int): int {
    IndexOf(v, 0, y, 0)
  }

  function LayerEnd(v: Volume, y: int, height: int): int {
    IndexOf(v, v.shape.width - 1, y + height - 1, v.shape.length - 1) + 1
  }

  /**
   * setHorizontalLayer(material, y, height): registers the material, then fills the
   * index range of the layers [y, y + height) of the lower plane (and of the upper plane,
   * allocated if need be, once `nextId` exceeds 255). Arrays.fill refuses a reversed
   * range with IllegalArgumentException and an out-of-array one with
   * ArrayIndexOutOfBoundsException, after the material was registered.
   */
  function SetHorizontalLayer(v: Volume, m: Material, y: int, height: int): (r: Effect)
    requires Wf(v)
    ensures Wf(r.after)
    ensures r.after.shape == v.shape
    ensures r.after.dictionary == Register(v, m).0.dictionary && r.after.nextId == Register(v, m).0.nextId
  {
    var (v1, id) := Register(v, m);
    FillLayers(v1, id, LayerStart(v, y), LayerEnd(v, y, height))
  }

  /** The two Arrays.fill calls of setHorizontalLayer, on the index range [start, end). */
  function FillLayers(v: Volume, id: int, start: int, end: int): (r: Effect)
    requires Wf(v)
    ensures Wf(r.after)
    ensures r.after.shape == v.shape && r.after.dictionary == v.dictionary && r.after.nextId == v.nextId
    ensures r.outcome.Ok? <==> 0 <= start <= end <= |v.lower|
    ensures r.outcome.Thrown? ==> r.after == v
  {
    if start > end then Effect(v, Thrown(IllegalArgument))
    else if start < 0 || end > |v.lower| then Effect(v, Thrown(IndexOutOfBounds))
    else
      var lower := Fill(v.lower, start, end, LowByte(id));
      if v.nextId > 255 then
        var plane := if v.upper.None? then Zeros(|v.lower|) else v.upper.value;
        Effect(v.(lower := lower, upper := Some(Fill(plane, start, end, HighByte(id)))), Ok(()))
      else
        Effect(v.(lower := lower), Ok(()))
  }

  // ---------------------------------------------------------------------------
  // Changing the default material.

  /** `(other & 0xff)`, the int both planes' bytes are compared with. */
  function LowInt(other: int): int {
    other % 256
  }

  /**
   * One byte of the single-plane pass: a byte equal (as a signed Java byte) to
   * `other & 0xff` becomes 0, a zero byte becomes `(byte) (other & 0xff)`.
   */
  function SwapLowerByte(b: Byte, other: int): Byte {
    if Signed(b) == LowInt(other) then 0
    else if b == 0 then LowByte(other)
    else b
  }

  /**
   * One cell of the two-plane pass. `other & 0xff00 >> 8` parses as `other & 0xff`, so both
   * planes are compared with, and receive, the low byte of `other`.
   */
  function SwapBothBytes(a: Byte, b: Byte, other: int): (Byte, Byte) {
    if Signed(a) == LowInt(other) && Signed(b) == LowInt(other) then (0, 0)
    else if a == 0 && b == 0 then (LowByte(other), LowByte(other))
    else (a, b)
  }

  function SwapLowerPlane(s: seq<Byte>, other: int): (r: seq<Byte>)
    ensures |r| == |s| && forall i | 0 <= i < |s| :: r[i] == SwapLowerByte(s[i], other)
  {
    seq(|s|, i requires 0 <= i < |s| => SwapLowerByte(s[i], other))
  }

  function SwapBothPlanes(lo: seq<Byte>, hi: seq<Byte>, other: int): (r: (seq<Byte>, seq<Byte>))
    requires |lo| == |hi|
    ensures |r.0| == |lo| && |r.1| == |lo|
    ensures forall i | 0 <= i < |lo| :: (r.0[i], r.1[i]) == SwapBothBytes(lo[i], hi[i], other)
  {
    (seq(|lo|, i requires 0 <= i < |lo| => SwapBothBytes(lo[i], hi[i], other).0),
     seq(|lo|, i requires 0 <= i < |lo| => SwapBothBytes(lo[i], hi[i], other).1))
  }

  /** The byte-rewrite passes that end setDefaultMaterial. */
  function SwapPlanes(v: Volume, other: int): (r: Volume)
    requires Wf(v)
    ensures Wf(r)
    ensures r.shape == v.shape && r.dictionary == v.dictionary && r.nextId == v.nextId
    ensures r.defaultMaterial == v.defaultMaterial && r.upper.Some? == v.upper.Some?
  {
    if v.upper.Some? then
      var planes := SwapBothPlanes(v.lower, v.upper.value, other);
      v.(lower := planes.0, upper := Some(planes.1))
    else
      v.(lower := SwapLowerPlane(v.lower, other))
  }

  /**
   * The third bimap put of setDefaultMaterial never succeeds. Once `put(0, m)` was accepted,
   * m was bound to 0 -- so `other` is 0 -- and `put(other, existing)` rebinds 0 to the old
   * default, which `inverse.put(m, 0)` then refuses.
   */
  lemma ThirdPutRefused(d: Dictionary, m: Material, existing: Material, other: int)
    requires Dictionaries.Valid(d) && m != existing
    requires other in d.byId && d.byId[other] == m
    requires Put(d, 0, m).Ok?
    requires Put(Put(d, 0, m).value, other, existing).Ok?
    ensures InversePut(Put(Put(d, 0, m).value, other, existing).value, m, 0).Thrown?
  {
    ValidIsInjective(d);
    assert other == 0;
  }

  /**
   * setDefaultMaterial(material), as written: nothing when the material is already the
   * default; otherwise the default field is replaced and the material registered, and
   * then the bimap puts meant to exchange the ids 0 and `other` always throw
   * IllegalArgumentException -- the first or second put, or else the third
   * (ThirdPutRefused). The fourth put and the byte passes (SwapPlanes) are never reached.
   */
  function SetDefaultMaterial(v: Volume, m: Material): (r: Effect)
    requires Wf(v)
    ensures Wf(r.after)
    ensures m == v.defaultMaterial ==> r == Effect(v, Ok(()))
    ensures m != v.defaultMaterial ==> r.after.defaultMaterial == m && r.outcome == Thrown(IllegalArgument)
    ensures r.after.shape == v.shape && r.after.lower == v.lower && r.after.upper == v.upper
  {
    if v.defaultMaterial == m then Effect(v, Ok(()))
    else
      var existing := v.defaultMaterial;
      var (v1, other) := Register(v.(defaultMaterial := m), m);
      match Put(v1.dictionary, 0, m)
      case Thrown(f) => Effect(v1, Thrown(f))
      case Ok(d1) =>
        match Put(d1, other, existing)
        case Thrown(f) => Effect(v1.(dictionary := d1), Thrown(f))
        case Ok(d2) =>
          ThirdPutRefused(v1.dictionary, m, existing, other);
          Effect(v1.(dictionary := d2), Thrown(InversePut(d2, m, 0).fault))
  }

  // ---------------------------------------------------------------------------
  // Construction.

  /**
   * The constructor: a zeroed lower plane, id 0 bound to the default material, `nextId`
   * 1, then flood(default).
   */
  function Constructed(shape: Shape, default: Material): (r: Volume)
    ensures Wf(r) && DefaultBound(r)
    ensures r.shape == shape && r.nextId == 1 && r.upper == None
    ensures r.dictionary.byId == map[0 := default] && NextIdTight(r)
    ensures forall i | 0 <= i < |r.lower| :: r.lower[i] == if shape.bits[i] then 0 else 255
  {
    var v0 := Volume(shape, 1, Single(0, default), Zeros(|shape.bits|), None, default);
    Flood(v0, default)
  }
}
