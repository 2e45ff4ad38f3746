/**
 * What the operations of a ComplexMaterialShape promise, stated over the value model of
 * material_volume.dfy, together with the places where the code as written breaks the
 * promise and the corrected definitions that keep it.
 */
module VolumeProperties {
  import opened Wrappers
  import opened JavaInts
  import opened Shapes
  import opened Materials
  import opened Dictionaries
  import opened MaterialVolumes

  /** The id handed out next is not bound yet (true until `nextId` wraps or registerMaterial reuses it). */
  ghost predicate NextIdUnbound(v: Volume) {
    v.nextId !in v.dictionary.byId
  }

  /** The upper plane exists only while `nextId` exceeds 255 (true until the counter wraps). */
  ghost predicate UpperOnlyWhenWide(v: Volume) {
    v.upper.Some? ==> v.nextId > 255
  }

  /** The material read back at an in-box cell addressed absolutely. */
  function MaterialAt(v: Volume, p: Vec3): Outcome<Option<Material>>
    requires Wf(v)
  {
    GetMaterial(v, p.x, p.y, p.z, false)
  }

  /** What getMaterial reads at plane index i of a cell whose shape bit is at i. */
  function ReadCell(v: Volume, i: int): Outcome<Option<Material>>
    requires Wf(v) && 0 <= i < |v.lower|
  {
    if !v.shape.bits[i] then Ok(None)
    else
      match ReadId(v, i)
      case Thrown(f) => Thrown(f)
      case Ok(raw) => Lookup(v, raw)
  }

  /** For an absolute in-box address, the shape test and the plane index agree on one cell. */
  lemma MaterialAtCell(v: Volume, p: Vec3)
    requires Wf(v) && InBox(v.shape, p)
    ensures MaterialAt(v, p) == ReadCell(v, Cell(v.shape, p))
  {
    assert IndexOf(v, p.x, p.y, p.z) == Cell(v.shape, p);
  }

  // ---------------------------------------------------------------------------
  // Construction.

  /**
   * A freshly constructed shape reads the default material at every set cell and
   * nothing at every unset cell.
   */
  lemma ConstructedReadsDefault(shape: Shape, default: Material, p: Vec3)
    requires InBox(shape, p)
    ensures var v := Constructed(shape, default);
      MaterialAt(v, p) == if shape.bits[Cell(shape, p)] then Ok(Some(default)) else Ok(None)
  {
    var v := Constructed(shape, default);
    var i := Cell(shape, p);
    assert IndexOf(v, p.x, p.y, p.z) == i;
    if shape.bits[i] {
      assert v.lower[i] == 0;
      assert ReadId(v, i) == Ok(0);
    }
  }

  // ---------------------------------------------------------------------------
  // The dictionary.

  /** getOrRegisterMaterial applied to each material of `ms` in turn; the ids it returned. */
  function RegisterAll(v: Volume, ms: seq<Material>): (r: (Volume, seq<int>))
    requires Wf(v)
    ensures Wf(r.0) && |r.1| == |ms|
    ensures r.0.lower == v.lower && r.0.upper == v.upper && r.0.shape == v.shape
    decreases |ms|
  {
    if |ms| == 0 then (v, [])
    else
      var (v1, id) := Register(v, ms[0]);
      var (v2, ids) := RegisterAll(v1, ms[1..]);
      (v2, [id] + ids)
  }

  /**
   * Distinct new materials receive the consecutive ids nextId, nextId + 1, ... as long as
   * the short counter does not wrap, and each id names its material afterwards.
   */
  lemma {:induction false} RegisterAllConsecutive(v: Volume, ms: seq<Material>)
    requires Wf(v) && IdsBelow(v)
    requires forall i, j | 0 <= i < j < |ms| :: ms[i] != ms[j]
    requires forall i | 0 <= i < |ms| :: ms[i] !in v.dictionary.byMaterial
    requires v.nextId + |ms| <= ShortMax
    ensures var (w, ids) := RegisterAll(v, ms);
      && IdsBelow(w)
      && w.nextId == v.nextId + |ms|
      && (forall i | 0 <= i < |ms| :: ids[i] == v.nextId + i)
      && (forall i | 0 <= i < |ms| :: ids[i] in w.dictionary.byId && w.dictionary.byId[ids[i]] == ms[i])
      && (forall k | k in v.dictionary.byId :: k in w.dictionary.byId && w.dictionary.byId[k] == v.dictionary.byId[k])
    decreases |ms|
  {
    if |ms| > 0 {
      var (v1, id) := Register(v, ms[0]);
      assert id == v.nextId && v1.nextId == v.nextId + 1;
      assert IdsBelow(v1);
      forall i | 0 <= i < |ms[1..]|
        ensures ms[1..][i] !in v1.dictionary.byMaterial
      {
        assert ms[1..][i] == ms[i + 1] != ms[0];
      }
      RegisterAllConsecutive(v1, ms[1..]);
    }
  }

  // ---------------------------------------------------------------------------
  // Single voxels.

  /** setMaterial then getMaterial at the same cell reads the material back, for ids 0..255. */
  lemma SetThenGet(v: Volume, p: Vec3, m: Material)
    requires Wf(v) && InBox(v.shape, p)
    requires 0 <= Register(v, m).1 < 256
    ensures SetMaterial(v, p.x, p.y, p.z, false, m).outcome == Ok(())
    ensures MaterialAt(SetMaterial(v, p.x, p.y, p.z, false, m).after, p) == Ok(Some(m))
  {
    var (v1, id) := Register(v, m);
    var i := Cell(v.shape, p);
    var w := SetMaterial(v, p.x, p.y, p.z, false, m).after;
    assert w.lower[i] == LowByte(id) && LowByte(id) as int == id;
    assert IndexOf(w, p.x, p.y, p.z) == i;
    assert Get(w.shape, p.x, p.y, p.z, false) == Ok(true);
    if w.nextId > 255 {
      assert w.upper.value[i] == 0;
    }
    assert ReadId(w, i) == Ok(id);
  }

  /** unsetMaterial then getMaterial at the same cell reads nothing. */
  lemma UnsetThenGet(v: Volume, p: Vec3)
    requires Wf(v) && InBox(v.shape, p)
    ensures UnsetMaterial(v, p.x, p.y, p.z, false).outcome == Ok(())
    ensures MaterialAt(UnsetMaterial(v, p.x, p.y, p.z, false).after, p) == Ok(None)
  {
    var w := UnsetMaterial(v, p.x, p.y, p.z, false).after;
    assert Get(w.shape, p.x, p.y, p.z, false) == Ok(false);
  }

  /**
   * The private `set` at index i, after the counter was raised, leaves what the private
   * `get` reads at any other index that could be read before.
   */
  lemma WriteLeavesOtherIndex(v: Volume, v1: Volume, i: int, data: int, j: int)
    requires Wf(v) && Wf(v1) && v1.lower == v.lower && v1.upper == v.upper
    requires v.nextId <= v1.nextId && UpperOnlyWhenWide(v)
    requires 0 <= i < |v.lower| && 0 <= j < |v.lower| && i != j
    requires ReadId(v, j).Ok?
    ensures ReadId(WriteId(v1, i, data), j) == ReadId(v, j)
  {
    var w := WriteId(v1, i, data);
    assert w.lower[j] == v.lower[j];
    if v1.nextId > 255 {
      if v.upper.None? {
        assert w.upper.value[j] == 0;
        assert ReadId(w, j) == Ok(Or(v.lower[j], 0) as int);
      } else {
        assert w.upper.value[j] == v.upper.value[j];
        assert ReadId(w, j) == Ok(Or(v.lower[j], v.upper.value[j]) as int);
      }
    }
  }

  /**
   * setMaterial leaves what every other cell reads unchanged, including when it is the
   * write that first allocates the upper plane -- provided the counter neither wraps nor
   * hands out an id that is already bound, and the other cell could be read before.
   */
  lemma SetLeavesOtherCells(v: Volume, p: Vec3, m: Material, q: Vec3)
    requires Wf(v) && InBox(v.shape, p) && InBox(v.shape, q) && p != q
    requires NextIdUnbound(v) && UpperOnlyWhenWide(v) && v.nextId < ShortMax
    requires MaterialAt(v, q).Ok?
    ensures MaterialAt(SetMaterial(v, p.x, p.y, p.z, false, m).after, q) == MaterialAt(v, q)
  {
    var (v1, id) := Register(v, m);
    var w := SetMaterial(v, p.x, p.y, p.z, false, m).after;
    var i, j := Cell(v.shape, p), Cell(v.shape, q);
    if i == j {
      IndexInjective(v.shape.width, v.shape.height, v.shape.length, p, q);
    }
    var w2 := WriteId(v1, i, id);
    assert w == w2.(shape := Assign(w2.shape, p, true));
    MaterialAtCell(v, q);
    MaterialAtCell(w, q);
    assert Cell(w.shape, q) == j;
    OtherCellKept(v, v1, w, i, id, j);
  }

  /** ReadCell at j after the counter was raised and the private `set` wrote index i != j. */
  lemma OtherCellKept(v: Volume, v1: Volume, w: Volume, i: int, id: int, j: int)
    requires Wf(v) && Wf(v1) && Wf(w) && v1.lower == v.lower && v1.upper == v.upper
    requires NextIdUnbound(v) && UpperOnlyWhenWide(v) && v.nextId <= v1.nextId
    requires || v1.dictionary.byId == v.dictionary.byId
             || (v.nextId in v1.dictionary.byId && v1.dictionary.byId == v.dictionary.byId[v.nextId := v1.dictionary.byId[v.nextId]])
    requires 0 <= i < |v.lower| && 0 <= j < |v.lower| && i != j
    requires w.lower == WriteId(v1, i, id).lower && w.upper == WriteId(v1, i, id).upper
    requires w.nextId == v1.nextId && w.dictionary == v1.dictionary && w.shape.bits[j] == v.shape.bits[j]
    requires ReadCell(v, j).Ok?
    ensures ReadCell(w, j) == ReadCell(v, j)
  {
    if v.shape.bits[j] {
      WriteLeavesOtherIndex(v, v1, i, id, j);
      assert ReadId(w, j) == ReadId(WriteId(v1, i, id), j);
      var raw := ReadId(v, j).value;
      assert raw in v.dictionary.byId && raw != v.nextId;
      assert Lookup(w, raw) == Lookup(v, raw);
    }
  }

  // ---------------------------------------------------------------------------
  // Flood and reset.

  /** After flood(m), every set cell reads m (for ids 0..255) and every unset cell nothing. */
  lemma FloodReads(v: Volume, m: Material, p: Vec3)
    requires Wf(v) && InBox(v.shape, p)
    requires 0 <= Register(v, m).1 < 256
    ensures MaterialAt(Flood(v, m), p) == if v.shape.bits[Cell(v.shape, p)] then Ok(Some(m)) else Ok(None)
  {
    var (v1, id) := Register(v, m);
    var w := Flood(v, m);
    var i := Cell(v.shape, p);
    assert IndexOf(w, p.x, p.y, p.z) == i;
    if v.shape.bits[i] {
      assert w.lower[i] == FloodLow(true, id);
      if w.nextId > 255 {
        assert w.upper.value[i] == FloodHigh(true, id) == 0;
      }
      assert ReadId(w, i) == Ok(id);
    }
  }

  /** Flooding twice with the same material is flooding once. */
  lemma FloodIdempotent(v: Volume, m: Material)
    requires Wf(v)
    ensures Flood(Flood(v, m), m) == Flood(v, m)
  {
    var w := Flood(v, m);
    var (v1, id) := Register(v, m);
    assert Register(w, m) == (w, id);
    var (w1, id') := Register(w, m);
    assert w1.lower == w.lower;
  }

  // ---------------------------------------------------------------------------
  // Horizontal layers.

  lemma LayerBounds(width: nat, length: nat, y: int, height: int)
    requires width > 0 && length > 0
    ensures Index(width, length, 0, y, 0) == y * (width * length)
    ensures Index(width, length, width - 1, y + height - 1, length - 1) + 1 == (y + height) * (width * length)
  {
    assert (length - 1) * width + width == width * length;
    assert (y + height - 1) * (width * length) + width * length == (y + height) * (width * length);
  }

  /** Offset row of layer py lies in the layers [y, y + h) exactly when y <= py < y + h. */
  lemma LayerOf(py: int, row: int, wl: int, y: int, h: int)
    requires 0 <= row < wl
    ensures y * wl <= py * wl + row < (y + h) * wl <==> y <= py < y + h
  {
    if py < y {
      MulLeftMono(py + 1, y, wl);
    }
    if y <= py {
      MulLeftMono(y, py, wl);
    }
    if py >= y + h {
      MulLeftMono(y + h, py, wl);
    }
    if py < y + h {
      MulLeftMono(py + 1, y + h, wl);
    }
  }

  /** Cell p lies in the index range of the layers [y, y + h) exactly when y <= p.y < y + h. */
  lemma CellInLayers(s: Shape, p: Vec3, y: int, h: int)
    requires InBox(s, p)
    ensures y * (s.width * s.length) <= Cell(s, p) < (y + h) * (s.width * s.length) <==> y <= p.y < y + h
  {
    var wl := s.width * s.length;
    RowInRange(s.width, s.length, p.x, p.z);
    var row := p.z * s.width + p.x;
    assert Cell(s, p) == p.y * wl + row;
    LayerOf(p.y, row, wl, y, h);
  }

  /** The index range of the layers [y, y + h) is ordered and within height layers exactly when the layers are. */
  lemma LayerSpan(y: int, h: int, height: int, wl: int)
    requires wl > 0
    ensures 0 <= y * wl <= (y + h) * wl <= height * wl <==> 0 <= h && 0 <= y && y + h <= height
    ensures y * wl > (y + h) * wl <==> h < 0
  {
    if h < 0 {
      MulLeftMono(y + h + 1, y, wl);
    } else {
      MulLeftMono(y, y + h, wl);
      if y < 0 {
        MulLeftMono(y + 1, 0, wl);
      }
      if y + h > height {
        MulLeftMono(height + 1, y + h, wl);
      }
      if 0 <= y && y + h <= height {
        MulLeftMono(y + h, height, wl);
        MulLeftMono(0, y, wl);
      }
    }
  }

  /**
   * setHorizontalLayer(m, y, h) on a non-degenerate box returns normally exactly when the
   * layers [y, y + h) lie within the height (h = 0 fills nothing), and throws
   * IllegalArgumentException exactly when h < 0.
   */
  lemma HorizontalLayerOutcome(v: Volume, m: Material, y: int, h: int)
    requires Wf(v) && v.shape.width > 0 && v.shape.length > 0
    ensures var r := SetHorizontalLayer(v, m, y, h);
      && (r.outcome.Ok? <==> 0 <= h && 0 <= y && y + h <= v.shape.height)
      && (r.outcome == Thrown(IllegalArgument) <==> h < 0)
  {
    var s := v.shape;
    var wl := s.width * s.length;
    LayerBounds(s.width, s.length, y, h);
    assert |v.lower| == s.height * wl by {
      assert s.width * s.height * s.length == s.height * (s.width * s.length);
    }
    LayerSpan(y, h, s.height, wl);
  }

  /**
   * When setHorizontalLayer(m, y, h) returns normally it has written m's low byte into
   * exactly the cells of layers [y, y + h), every other cell keeping its byte. Once
   * `nextId` exceeds 255 the upper plane exists afterwards and holds m's high byte in
   * those layers, every other cell keeping its old upper byte (0 in a plane allocated
   * by the call); before that the upper plane is left alone.
   */
  lemma HorizontalLayerCells(v: Volume, m: Material, y: int, h: int)
    requires Wf(v)
    requires SetHorizontalLayer(v, m, y, h).outcome.Ok?
    ensures var r := SetHorizontalLayer(v, m, y, h);
      forall p | InBox(v.shape, p) ::
        r.after.lower[Cell(v.shape, p)] ==
          if y <= p.y < y + h then LowByte(Register(v, m).1) else v.lower[Cell(v.shape, p)]
    ensures var r := SetHorizontalLayer(v, m, y, h);
      r.after.nextId > 255 ==> r.after.upper.Some? && forall p | InBox(v.shape, p) ::
        r.after.upper.value[Cell(v.shape, p)] ==
          if y <= p.y < y + h then HighByte(Register(v, m).1)
          else if v.upper.Some? then v.upper.value[Cell(v.shape, p)] else 0
    ensures var r := SetHorizontalLayer(v, m, y, h);
      r.after.nextId <= 255 ==> r.after.upper == v.upper
  {
    var s := v.shape;
    var r := SetHorizontalLayer(v, m, y, h);
    var (v1, id) := Register(v, m);
    if s.width > 0 && s.length > 0 {
      var wl := s.width * s.length;
      LayerBounds(s.width, s.length, y, h);
      var start, end := LayerStart(v, y), LayerEnd(v, y, h);
      assert start == y * wl && end == (y + h) * wl;
      assert r.after.lower == Fill(v1.lower, start, end, LowByte(id));
      forall p | InBox(s, p)
        ensures r.after.lower[Cell(s, p)] == if y <= p.y < y + h then LowByte(id) else v.lower[Cell(s, p)]
      {
        CellInLayers(s, p, y, h);
        var i := Cell(s, p);
        assert r.after.lower[i] == if start <= i < end then LowByte(id) else v1.lower[i];
      }
      if v1.nextId > 255 {
        var plane := if v1.upper.None? then Zeros(|v1.lower|) else v1.upper.value;
        assert r.after.upper == Some(Fill(plane, start, end, HighByte(id)));
        forall p | InBox(s, p)
          ensures r.after.upper.value[Cell(s, p)] ==
            if y <= p.y < y + h then HighByte(id) else if v.upper.Some? then v.upper.value[Cell(s, p)] else 0
        {
          CellInLayers(s, p, y, h);
          var i := Cell(s, p);
          assert r.after.upper.value[i] == if start <= i < end then HighByte(id) else plane[i];
        }
      }
    }
  }

  // ---------------------------------------------------------------------------
  // Finding: the upper byte is ORed in without being shifted.

  /**
   * The material that received id 256 does not read back: its cells decode as id 1,
   * which names a different material (or no material, and getMaterial throws).
   */
  lemma WideIdMisread(v: Volume, p: Vec3, m: Material)
    requires Wf(v) && InBox(v.shape, p) && v.nextId > 255
    requires Register(v, m).1 == 256
    ensures SetMaterial(v, p.x, p.y, p.z, false, m).outcome == Ok(())
    ensures MaterialAt(SetMaterial(v, p.x, p.y, p.z, false, m).after, p) != Ok(Some(m))
  {
    var (v1, id) := Register(v, m);
    var i := Cell(v.shape, p);
    var w := SetMaterial(v, p.x, p.y, p.z, false, m).after;
    assert IndexOf(w, p.x, p.y, p.z) == i;
    assert Get(w.shape, p.x, p.y, p.z, false) == Ok(true);
    assert w.nextId > 255;
    assert w.lower[i] == 0 && w.upper.value[i] == 1;
    assert ReadId(w, i) == Ok(1);
    ValidIsInjective(w.dictionary);
    assert w.dictionary.byId[256] == m;
  }

  /** The intended private `get`: the upper byte shifted left by 8, narrowed to a short. */
  function ReadIdIntended(v: Volume, i: int): (r: Outcome<int>)
    requires Wf(v) && 0 <= i < |v.lower|
    ensures r.Ok? ==> IsShort(r.value)
    ensures r.Thrown? <==> v.nextId > 255 && v.upper.None?
  {
    if v.nextId > 255 then
      if v.upper.None? then Thrown(NullPointer)
      else Ok(ShortWrap(v.lower[i] as int + 256 * v.upper.value[i] as int))
    else Ok(ShortWrap(v.lower[i] as int))
  }

  lemma SplitJoin(id: int)
    requires IsShort(id)
    ensures ShortWrap(LowByte(id) as int + 256 * HighByte(id) as int) == id
  {
    var q, u := id / 65536, id % 65536;
    var h, l := u / 256, u % 256;
    assert u == 256 * h + l;
    assert id == 256 * (256 * q + h) + l;
    assert LowByte(id) as int == l;
    assert HighByte(id) as int == h;
    assert id + 32768 == 65536 * q + (u + 32768);
  }

  /**
   * With the shift in place, every short id written by the private `set` reads back,
   * through both planes once `nextId` exceeds 255 and through the lower plane for ids
   * 0..255 before that.
   */
  lemma WriteThenReadIntended(v: Volume, i: int, id: int)
    requires Wf(v) && 0 <= i < |v.lower| && IsShort(id)
    requires v.nextId <= 255 ==> 0 <= id < 256
    ensures ReadIdIntended(WriteId(v, i, id), i) == Ok(id)
  {
    var w := WriteId(v, i, id);
    if v.nextId > 255 {
      SplitJoin(id);
    }
  }

  // ---------------------------------------------------------------------------
  // Finding: registerMaterial sets nextId to the key itself.

  /**
   * After registerMaterial(key, m1) with key at or past nextId, the next new material is
   * given the same key and silently replaces m1 in the dictionary.
   */
  lemma RegisterMaterialReusesKey(v: Volume, key: int, m1: Material, m2: Material)
    requires Wf(v) && IsShort(key) && key >= v.nextId
    requires m1 != m2 && m2 !in v.dictionary.byMaterial
    requires RegisterMaterial(v, key, m1).outcome.Ok?
    ensures var w := RegisterMaterial(v, key, m1).after;
      && Register(w, m2).1 == key
      && m1 !in Register(w, m2).0.dictionary.byMaterial
  {
    var w := RegisterMaterial(v, key, m1).after;
    assert w.nextId == key;
    assert m2 !in w.dictionary.byMaterial;
    var d := Register(w, m2).0.dictionary;
    assert d.byId[key] == m2;
    ValidIsInjective(w.dictionary);
  }

  /**
   * registerMaterial(key, m) with key at or past nextId leaves nextId at the key, so
   * getMaxMaterialId reports one less than the id just bound; with key 256 hasExtraData
   * denies the upper plane that id 256 needs.
   */
  lemma RegisterMaterialHidesKey(v: Volume, key: int, m: Material)
    requires Wf(v) && NextIdTight(v) && IsShort(key) && key >= v.nextId
    requires RegisterMaterial(v, key, m).outcome.Ok?
    ensures var w := RegisterMaterial(v, key, m).after;
      && key in w.dictionary.byId
      && MaxMaterialId(w) == key - 1
      && !NextIdTight(w)
      && (key == 256 ==> !HasExtraData(w))
  {
    var w := RegisterMaterial(v, key, m).after;
    assert w.dictionary.byId[key] == m;
    assert w.nextId == key;
  }

  /** registerMaterial as evidently intended: the counter moves past the key. */
  function RegisterMaterialIntended(v: Volume, key: int, m: Material): (r: Effect)
    requires Wf(v) && IsShort(key) && key < ShortMax
    ensures Wf(r.after)
    ensures r.outcome.Thrown? <==> m in v.dictionary.byMaterial && v.dictionary.byMaterial[m] != key
    ensures r.outcome.Ok? ==> r.after.dictionary.byId == v.dictionary.byId[key := m]
    ensures NextIdTight(v) ==> NextIdTight(r.after)
  {
    match Put(v.dictionary, key, m)
    case Thrown(f) => Effect(v, Thrown(f))
    case Ok(d) => Effect(v.(dictionary := d, nextId := if v.nextId > key then v.nextId else key + 1), Ok(()))
  }

  /**
   * With the intended counter, ids stay below nextId, so the next new material gets a
   * fresh id and the registered key keeps its material.
   */
  lemma RegisterMaterialIntendedKeepsKey(v: Volume, key: int, m1: Material, m2: Material)
    requires Wf(v) && IdsBelow(v) && IsShort(key) && key < ShortMax
    requires m1 != m2 && m2 !in v.dictionary.byMaterial
    requires RegisterMaterialIntended(v, key, m1).outcome.Ok?
    ensures var w := RegisterMaterialIntended(v, key, m1).after;
      && IdsBelow(w)
      && Register(w, m2).1 != key
      && Register(w, m2).0.dictionary.byId[key] == m1
  {
    var w := RegisterMaterialIntended(v, key, m1).after;
    assert IdsBelow(w);
    assert w.dictionary.byId[key] == m1;
    assert m2 !in w.dictionary.byMaterial;
    assert Register(w, m2).1 == w.nextId;
  }

  // ---------------------------------------------------------------------------
  // Finding: setDefaultMaterial always throws.

  /**
   * The failed call is not harmless: starting from a shape whose id 0 names its default,
   * setDefaultMaterial(m) for another material throws and leaves the default field naming
   * m while id 0 still names the old default.
   */
  lemma SetDefaultMaterialBreaksDefault(v: Volume, m: Material)
    requires Wf(v) && DefaultBound(v) && m != v.defaultMaterial
    ensures !DefaultBound(SetDefaultMaterial(v, m).after)
  {
    var existing := v.defaultMaterial;
    var (v1, other) := Register(v.(defaultMaterial := m), m);
    if other != 0 {
      assert Put(v1.dictionary, 0, m).Thrown?;
      assert v1.dictionary.byId[0] == existing;
    } else {
      var d1 := Put(v1.dictionary, 0, m).value;
      assert existing !in d1.byMaterial;
      var d2 := Put(d1, 0, existing).value;
      assert d2.byId[0] == existing;
    }
  }

  /**
   * The single-plane pass exchanges the ids 0 and `other` byte by byte when `other` lies
   * in 1..127: a byte holding `other` becomes 0, a zero byte becomes `other`, and every
   * other byte is kept.
   */
  lemma SwapLowerExchanges(b: Byte, other: int)
    requires 0 < other < 128
    ensures SwapLowerByte(b, other) as int == if b as int == other then 0 else if b == 0 then other else b as int
  {
  }

  /**
   * For `other` in 128..255 the signed byte never equals `other & 0xff`, so a cell holding
   * `other` keeps it while the zero bytes become `other`: both materials end up on one id.
   */
  lemma SwapLowerSignedMiss(other: int)
    requires 128 <= other < 256
    ensures SwapLowerByte(other as Byte, other) as int == other
    ensures SwapLowerByte(0, other) as int == other
  {
    assert Signed(other as Byte) < 0;
  }

  /** The relabelling of ids that exchanging id 0 with `other` evidently intends. */
  function SwapId(id: int, other: int): int {
    if id == other then 0 else if id == 0 then other else id
  }

  /**
   * The dictionary half of setDefaultMaterial as evidently intended: the new default takes
   * id 0 and the old default takes the new material's id, `other`.
   */
  function ExchangeIntended(v: Volume, m: Material): (r: (Dictionary, int))
    requires Wf(v) && DefaultBound(v) && m != v.defaultMaterial && NextIdUnbound(v)
    ensures Dictionaries.Valid(r.0)
    ensures 0 in r.0.byId && r.0.byId[0] == m
  {
    var existing := v.defaultMaterial;
    var (v1, other) := Register(v, m);
    var d := v1.dictionary;
    assert other != 0;
    (Dictionary(d.byId[0 := m][other := existing], d.byMaterial[m := 0][existing := other]), other)
  }

  /**
   * The intended exchange preserves what every id means: the material id k named before
   * is the one SwapId(k) names after, and no other id becomes bound.
   */
  lemma ExchangeKeepsMeaning(v: Volume, m: Material)
    requires Wf(v) && DefaultBound(v) && m != v.defaultMaterial && NextIdUnbound(v)
    ensures var (d, other) := ExchangeIntended(v, m);
      var before := Register(v, m).0.dictionary.byId;
      && (forall k | k in before :: SwapId(k, other) in d.byId && d.byId[SwapId(k, other)] == before[k])
      && d.byId.Keys == before.Keys
  {
  }

  /** No bound id is negative (ids come from the counter, which starts at 0). */
  ghost predicate IdsNonNegative(v: Volume) {
    forall k | k in v.dictionary.byId :: 0 <= k
  }

  /**
   * The id a cell holds with the bytes joined as intended (ReadIdIntended), a missing
   * upper plane counting as zeros.
   */
  function JoinedId(v: Volume, i: int): (r: int)
    requires Wf(v) && 0 <= i < |v.lower|
    ensures IsShort(r)
    ensures v.nextId <= 255 ==> r == v.lower[i] as int
    ensures v.upper.Some? || v.nextId <= 255 ==> ReadIdIntended(v, i) == Ok(r)
  {
    if v.nextId > 255 then
      ShortWrap(v.lower[i] as int + 256 * (if v.upper.Some? then v.upper.value[i] as int else 0))
    else v.lower[i] as int
  }

  /**
   * setDefaultMaterial as evidently intended, on the whole shape: the dictionary
   * exchange, then every cell's id relabelled by SwapId, compared as an unsigned id and
   * written back through both planes once `nextId` exceeds 255.
   */
  function SetDefaultMaterialIntended(v: Volume, m: Material): (r: Volume)
    requires Wf(v) && NextIdTight(v) && DefaultBound(v) && m != v.defaultMaterial
    requires v.nextId < ShortMax
    ensures Wf(r) && r.shape == v.shape && r.defaultMaterial == m
    ensures r.nextId == Register(v, m).0.nextId && r.dictionary == ExchangeIntended(v, m).0
  {
    var (v1, other) := Register(v, m);
    var (d, _) := ExchangeIntended(v, m);
    var n := |v1.lower|;
    var lower := seq(n, i requires 0 <= i < n => LowByte(SwapId(JoinedId(v1, i), other)));
    if v1.nextId > 255 then
      var upper := seq(n, i requires 0 <= i < n => HighByte(SwapId(JoinedId(v1, i), other)));
      v1.(dictionary := d, defaultMaterial := m, lower := lower, upper := Some(upper))
    else
      v1.(dictionary := d, defaultMaterial := m, lower := lower)
  }

  /** Each cell of the intended result holds the relabelled id of the same cell before it. */
  lemma RelabelledId(v: Volume, m: Material, i: int)
    requires Wf(v) && NextIdTight(v) && IdsNonNegative(v) && DefaultBound(v) && m != v.defaultMaterial
    requires v.nextId < ShortMax && 0 <= i < |v.lower|
    ensures var (v1, other) := Register(v, m);
      JoinedId(SetDefaultMaterialIntended(v, m), i) == SwapId(JoinedId(v1, i), other)
  {
    var (v1, other) := Register(v, m);
    var w := SetDefaultMaterialIntended(v, m);
    assert other in v1.dictionary.byId && 0 <= other < v1.nextId;
    var x := SwapId(JoinedId(v1, i), other);
    if v1.nextId > 255 {
      SplitJoin(x);
      assert w.lower[i] == LowByte(x) && w.upper.value[i] == HighByte(x);
    } else {
      assert w.lower[i] == LowByte(x);
    }
  }

  /** Exchanging two bound ids of a map, read through SwapId, gives back the old entry. */
  lemma SwapEntry(before: map<int, Material>, after: map<int, Material>, other: int, k: int)
    requires 0 in before && other in before && after.Keys == before.Keys
    requires forall j | j in before :: SwapId(j, other) in after && after[SwapId(j, other)] == before[j]
    ensures SwapId(k, other) in after <==> k in before
    ensures k in before ==> after[SwapId(k, other)] == before[k]
  {
    if k !in before {
      assert SwapId(k, other) == k;
    }
  }

  /** A relabelled id names, in the exchanged dictionary, what the id named before. */
  lemma RelabelledLookup(v: Volume, m: Material, k: int)
    requires Wf(v) && NextIdTight(v) && DefaultBound(v) && m != v.defaultMaterial
    requires v.nextId < ShortMax
    ensures var (v1, other) := Register(v, m);
      Lookup(SetDefaultMaterialIntended(v, m), SwapId(k, other)) == Lookup(v1, k)
  {
    var r := Register(v, m);
    var e := ExchangeIntended(v, m);
    ExchangeKeepsMeaning(v, m);
    assert r.1 == e.1;
    SwapEntry(r.0.dictionary.byId, e.0.byId, r.1, k);
  }

  /** The corrected setDefaultMaterial keeps id 0 on the default and nextId one past the largest id. */
  lemma IntendedKeepsInvariants(v: Volume, m: Material)
    requires Wf(v) && NextIdTight(v) && DefaultBound(v) && m != v.defaultMaterial
    requires v.nextId < ShortMax
    ensures DefaultBound(SetDefaultMaterialIntended(v, m)) && NextIdTight(SetDefaultMaterialIntended(v, m))
  {
    var v1 := Register(v, m).0;
    var d := ExchangeIntended(v, m).0;
    ExchangeKeepsMeaning(v, m);
    assert NextIdTight(v1);
    assert d.byId.Keys == v1.dictionary.byId.Keys;
  }

  /**
   * With the exchange and the relabelling together, id 0 names the new default, nextId
   * stays one past the largest id, and every cell names under the intended join the
   * material it named once m was registered; while fewer than 256 ids are in use,
   * getMaterial as written reads the same material at every cell as before.
   */
  lemma SetDefaultMaterialIntendedKeepsCells(v: Volume, m: Material, p: Vec3)
    requires Wf(v) && NextIdTight(v) && IdsNonNegative(v) && DefaultBound(v) && m != v.defaultMaterial
    requires v.nextId < ShortMax && InBox(v.shape, p)
    ensures var v1 := Register(v, m).0;
      var w := SetDefaultMaterialIntended(v, m);
      var i := Cell(v.shape, p);
      && DefaultBound(w) && NextIdTight(w)
      && Lookup(w, JoinedId(w, i)) == Lookup(v1, JoinedId(v1, i))
      && (v1.nextId <= 255 ==> MaterialAt(w, p) == MaterialAt(v1, p))
  {
    var r := Register(v, m);
    var i := Cell(v.shape, p);
    IntendedKeepsInvariants(v, m);
    RelabelledId(v, m, i);
    RelabelledLookup(v, m, JoinedId(r.0, i));
    if r.0.nextId <= 255 {
      NarrowCellKept(v, m, p);
    }
  }

  /** While fewer than 256 ids are in use, getMaterial as written reads each cell unchanged. */
  lemma NarrowCellKept(v: Volume, m: Material, p: Vec3)
    requires Wf(v) && NextIdTight(v) && IdsNonNegative(v) && DefaultBound(v) && m != v.defaultMaterial
    requires v.nextId < ShortMax && InBox(v.shape, p) && Register(v, m).0.nextId <= 255
    ensures MaterialAt(SetDefaultMaterialIntended(v, m), p) == MaterialAt(Register(v, m).0, p)
  {
    var (v1, other) := Register(v, m);
    var w := SetDefaultMaterialIntended(v, m);
    var i := Cell(v.shape, p);
    var k := JoinedId(v1, i);
    RelabelledId(v, m, i);
    RelabelledLookup(v, m, k);
    MaterialAtCell(w, p);
    MaterialAtCell(v1, p);
    assert ReadId(w, i) == Ok(JoinedId(w, i));
    assert ReadId(v1, i) == Ok(k);
  }

  // ---------------------------------------------------------------------------
  // Finding: the sentinel -1 is never read back.

  /**
   * The private `get` masks the lower byte, so the -1 stored by unsetMaterial (and by
   * flood at unset cells) reads back as 255 and getMaterial's fallback to the default
   * never applies: while fewer than 256 ids are in use, a cell unset and then marked again
   * through the public set reads the unbound id 255, and getMaterial throws.
   */
  lemma SentinelMisread(v: Volume, p: Vec3)
    requires Wf(v) && IdsBelow(v) && InBox(v.shape, p) && v.nextId <= 255
    ensures var u := UnsetMaterial(v, p.x, p.y, p.z, false).after;
      MaterialAt(MarkCell(u, p.x, p.y, p.z, false).after, p) == Thrown(NullPointer)
  {
    var i := Cell(v.shape, p);
    var u := UnsetMaterial(v, p.x, p.y, p.z, false).after;
    var w := MarkCell(u, p.x, p.y, p.z, false).after;
    assert u.lower[i] == LowByte(-1) == 255;
    assert IndexOf(w, p.x, p.y, p.z) == i;
    assert ReadId(w, i) == Ok(255);
  }

  /**
   * The private `get` as getMaterial's test evidently expects it: a stored -1 reads as -1.
   * While `nextId` is at most 255 no id in use reaches 255, so the byte 255 can only be
   * the sentinel; once the upper plane is in use both bytes are joined as in ReadIdIntended.
   */
  function ReadIdSentinel(v: Volume, i: int): (r: Outcome<int>)
    requires Wf(v) && 0 <= i < |v.lower|
    ensures r.Ok? ==> IsShort(r.value)
    ensures r.Ok? && v.nextId <= 255 ==> -1 <= r.value < 255
    ensures r.Thrown? <==> v.nextId > 255 && v.upper.None?
    ensures v.nextId <= 255 ==> (r == Ok(-1) <==> v.lower[i] == 255)
  {
    if v.nextId > 255 then
      if v.upper.None? then Thrown(NullPointer)
      else Ok(ShortWrap(v.lower[i] as int + 256 * v.upper.value[i] as int))
    else if v.lower[i] == 255 then Ok(-1)
    else Ok(v.lower[i] as int)
  }

  /** getMaterial at an absolute in-box cell, with the intended read: -1 falls back to id 0. */
  function GetMaterialIntended(v: Volume, p: Vec3): Outcome<Option<Material>>
    requires Wf(v) && InBox(v.shape, p)
  {
    var i := Cell(v.shape, p);
    if !v.shape.bits[i] then Ok(None)
    else
      match ReadIdSentinel(v, i)
      case Thrown(f) => Thrown(f)
      case Ok(raw) => if raw == -1 then Lookup(v, 0) else Lookup(v, raw)
  }

  /** With the intended read, a cell unset and marked again reads the default material. */
  lemma SentinelReadsDefault(v: Volume, p: Vec3)
    requires Wf(v) && DefaultBound(v) && InBox(v.shape, p)
    ensures var u := UnsetMaterial(v, p.x, p.y, p.z, false).after;
      GetMaterialIntended(MarkCell(u, p.x, p.y, p.z, false).after, p) == Ok(Some(v.defaultMaterial))
  {
    var i := Cell(v.shape, p);
    var u := UnsetMaterial(v, p.x, p.y, p.z, false).after;
    var w := MarkCell(u, p.x, p.y, p.z, false).after;
    assert w.lower[i] == LowByte(-1) == 255;
    assert w.shape.bits[i];
    if v.nextId > 255 {
      assert w.upper.value[i] == HighByte(-1) == 255;
      assert ShortWrap(255 + 256 * 255) == -1;
    }
    assert ReadIdSentinel(w, i) == Ok(-1);
  }

  /** Everywhere but at the sentinel byte, the intended read agrees with getMaterial as written. */
  lemma SentinelOnlyDifference(v: Volume, p: Vec3)
    requires Wf(v) && InBox(v.shape, p) && v.nextId <= 255 && v.lower[Cell(v.shape, p)] != 255
    ensures GetMaterialIntended(v, p) == MaterialAt(v, p)
  {
    assert IndexOf(v, p.x, p.y, p.z) == Cell(v.shape, p);
  }
}
