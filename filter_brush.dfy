/**
 * FilterBrush.run: the morphological filter sweep. For every set cell of the target shape
 * (x, then y, then z) the brush visits every set cell of a structuring element (a, then
 * b, then c), feeds the neighbour at the element's offset to the linear-blend operation
 * unless fluids are excluded and the neighbour is liquid, writes the operation's result
 * into a fresh ComplexMaterialShape overlay and resets the operation. The overlay is
 * flushed to the world at the target location once the sweep is over.
 *
 * The world is read-only here: a block-material function and an isLiquid test on
 * materials. PrimativeShapeFactory.createShape is a function from kernel name and size
 * to an optional shape.
 */
module FilterBrushes {
  import opened Wrappers
  import opened Materials
  import opened Shapes
  import MaterialVolumes
  import VolumeProperties
  import LinearBlend
  import ComplexMaterialShapes

  /** The world as the brush sees it. */
  datatype Scene = Scene(blocks: (int, int, int) -> Material, isLiquid: Material -> bool)

  /** The brush variables run consults; a key that is not set is None. */
  datatype BrushVars = BrushVars(
    excludeFluid: Option<bool>,
    shape: Option<Shape>,
    material: Option<Material>,
    kernel: Option<string>,
    kernelSize: Option<real>,
    targetBlock: Option<Vec3>)

  /**
   * What run ends with: abortExecution after a message to the player, continueExecution
   * after flushing `overlay` at `location`, or an exception escaping the sweep.
   */
  datatype RunResult =
    | Aborted(message: string)
    | Continued(location: Vec3, overlay: MaterialVolumes.Volume)
    | Failed(fault: Fault)

  /** Everything the sweep consults that stays fixed while it runs. */
  datatype Pass = Pass(
    len: (int, int, int) -> real,
    order: map<Material, real> -> seq<Material>,
    scene: Scene,
    excludeFluid: bool,
    se: Shape,
    target: Shape,
    loc: Vec3)

  function ShapeMissing(name: string): string {
    "You must have at least one shape brush before your" + name + "brush."
  }

  const MaterialMissing := "You must select a material."

  /** The structuring element used when the factory knows no shape of that name: new CuboidShape(3, 3, 3, (1, 1, 1)). */
  function Fallback(): (r: Shape)
    ensures r.width == 3 && r.height == 3 && r.length == 3 && r.origin == Vec3(1, 1, 1)
    ensures forall i | 0 <= i < |r.bits| :: r.bits[i]
  {
    Cuboid(3, 3, 3, Vec3(1, 1, 1))
  }

  /** The structuring element: the factory's shape for the kernel name and size, or the fallback cuboid. */
  function StructuringElement(args: BrushVars, factory: (string, real) -> Option<Shape>): Shape {
    var se := factory(args.kernel.GetOr("voxel"), args.kernelSize.GetOr(1.0));
    if se.None? then Fallback() else se.value
  }

  /**
   * Without a kernel name or size the factory is asked for a "voxel" of size 1.0; a name
   * the factory does not know gives the full 3x3x3 cuboid centred on (1, 1, 1).
   */
  lemma KernelDefaults(args: BrushVars, factory: (string, real) -> Option<Shape>)
    ensures args.kernel.None? && args.kernelSize.None? && factory("voxel", 1.0).Some? ==>
      StructuringElement(args, factory) == factory("voxel", 1.0).value
    ensures factory(args.kernel.GetOr("voxel"), args.kernelSize.GetOr(1.0)).None? ==>
      var se := StructuringElement(args, factory);
      && se.width == 3 && se.height == 3 && se.length == 3 && se.origin == Vec3(1, 1, 1)
      && forall i | 0 <= i < |se.bits| :: se.bits[i]
  {
  }

  // ---------------------------------------------------------------------------
  // The three inner loops: the structuring element around one target voxel.

  /**
   * One structuring-element cell (a, b, c) around the target voxel at world position p0:
   * an unset cell is skipped, a liquid neighbour is skipped when fluids are excluded, and
   * otherwise checkPosition receives the offset (a, b, c) - origin.
   */
  function Visit(t: LinearBlend.Tally, p: Pass, p0: Vec3, a: int, b: int, c: int): LinearBlend.Tally
    requires InBox(p.se, Vec3(a, b, c))
  {
    if !p.se.bits[Cell(p.se, Vec3(a, b, c))] then t
    else
      var o := Vec3(a, b, c).Sub(p.se.origin);
      if p.excludeFluid && p.scene.isLiquid(p.scene.blocks(p0.x + o.x, p0.y + o.y, p0.z + o.z)) then t
      else LinearBlend.Check(t, p.len, p.scene.blocks, p0.x, p0.y, p0.z, o.x, o.y, o.z)
  }

  /** The c loop: cells (a, b, 0) .. (a, b, n - 1). */
  function KernelC(t: LinearBlend.Tally, p: Pass, p0: Vec3, a: int, b: int, n: int): LinearBlend.Tally
    requires 0 <= a < p.se.width && 0 <= b < p.se.height && 0 <= n <= p.se.length
    decreases n
  {
    if n == 0 then t else Visit(KernelC(t, p, p0, a, b, n - 1), p, p0, a, b, n - 1)
  }

  /** The b loop: rows 0 .. n - 1 of slab a. */
  function KernelB(t: LinearBlend.Tally, p: Pass, p0: Vec3, a: int, n: int): LinearBlend.Tally
    requires 0 <= a < p.se.width && 0 <= n <= p.se.height
    decreases n
  {
    if n == 0 then t else KernelC(KernelB(t, p, p0, a, n - 1), p, p0, a, n - 1, p.se.length)
  }

  /** The a loop: slabs 0 .. n - 1. */
  function KernelA(t: LinearBlend.Tally, p: Pass, p0: Vec3, n: int): LinearBlend.Tally
    requires 0 <= n <= p.se.width
    decreases n
  {
    if n == 0 then t else KernelB(KernelA(t, p, p0, n - 1), p, p0, n - 1, p.se.height)
  }

  /** The whole structuring element around p0. */
  function Kernel(t: LinearBlend.Tally, p: Pass, p0: Vec3): LinearBlend.Tally {
    KernelA(t, p, p0, p.se.width)
  }

  /** With fluids excluded, a neighbour that is liquid where the brush tests it never reaches checkPosition. */
  lemma LiquidNeverChecked(t: LinearBlend.Tally, p: Pass, p0: Vec3, a: int, b: int, c: int)
    requires InBox(p.se, Vec3(a, b, c)) && p.excludeFluid
    requires var o := Vec3(a, b, c).Sub(p.se.origin);
      p.scene.isLiquid(p.scene.blocks(p0.x + o.x, p0.y + o.y, p0.z + o.z))
    ensures Visit(t, p, p0, a, b, c) == t
  {
  }

  /**
   * The liquid test reads the unclamped position while checkPosition re-reads the world
   * at a height clamped to [0, 255]: above the top of the world, the liquid block at
   * height 255 is counted although fluids are excluded. This is an observation about
   * the code as written, not one of the findings: whether the authors meant the clamped
   * re-read to bypass the fluid filter cannot be told from the code.
   */
  lemma ClampedLiquidCounted(t: LinearBlend.Tally, p: Pass, p0: Vec3, a: int, b: int, c: int)
    requires InBox(p.se, Vec3(a, b, c)) && p.se.bits[Cell(p.se, Vec3(a, b, c))]
    requires p0.y == 255 && Vec3(a, b, c).Sub(p.se.origin) == Vec3(0, 1, 0)
    requires !p.scene.isLiquid(p.scene.blocks(p0.x, 256, p0.z))
    ensures p.scene.isLiquid(p.scene.blocks(p0.x, 255, p0.z)) ==>
      p.scene.blocks(p0.x, 255, p0.z) in Visit(t, p, p0, a, b, c).weights
  {
    assert LinearBlend.Neighbour(p.scene.blocks, p0.x, p0.y, p0.z, 0, 1, 0) == p.scene.blocks(p0.x, 255, p0.z);
  }

  /** Each structuring-element pass keeps the tally bounded (checkPosition does, one cell at a time). */
  lemma {:induction false} KernelBounded(t: LinearBlend.Tally, p: Pass, p0: Vec3)
    requires LinearBlend.Bounded(t) && LinearBlend.IsLength(p.len)
    ensures LinearBlend.Bounded(Kernel(t, p, p0))
  {
    KernelABounded(t, p, p0, p.se.width);
  }

  lemma {:induction false} KernelABounded(t: LinearBlend.Tally, p: Pass, p0: Vec3, n: int)
    requires 0 <= n <= p.se.width
    requires LinearBlend.Bounded(t) && LinearBlend.IsLength(p.len)
    ensures LinearBlend.Bounded(KernelA(t, p, p0, n))
    decreases n
  {
    if n > 0 {
      KernelABounded(t, p, p0, n - 1);
      KernelBBounded(KernelA(t, p, p0, n - 1), p, p0, n - 1, p.se.height);
    }
  }

  lemma {:induction false} KernelBBounded(t: LinearBlend.Tally, p: Pass, p0: Vec3, a: int, n: int)
    requires 0 <= a < p.se.width && 0 <= n <= p.se.height
    requires LinearBlend.Bounded(t) && LinearBlend.IsLength(p.len)
    ensures LinearBlend.Bounded(KernelB(t, p, p0, a, n))
    decreases n
  {
    if n > 0 {
      KernelBBounded(t, p, p0, a, n - 1);
      KernelCBounded(KernelB(t, p, p0, a, n - 1), p, p0, a, n - 1, p.se.length);
    }
  }

  lemma {:induction false} KernelCBounded(t: LinearBlend.Tally, p: Pass, p0: Vec3, a: int, b: int, n: int)
    requires 0 <= a < p.se.width && 0 <= b < p.se.height && 0 <= n <= p.se.length
    requires LinearBlend.Bounded(t) && LinearBlend.IsLength(p.len)
    ensures LinearBlend.Bounded(KernelC(t, p, p0, a, b, n))
    decreases n
  {
    if n > 0 {
      KernelCBounded(t, p, p0, a, b, n - 1);
      var s := KernelC(t, p, p0, a, b, n - 1);
      var o := Vec3(a, b, n - 1).Sub(p.se.origin);
      LinearBlend.CheckBounded(s, p.len, p.scene.blocks, p0.x, p0.y, p0.z, o.x, o.y, o.z);
    }
  }

  // ---------------------------------------------------------------------------
  // The three outer loops: the target shape.

  /** The overlay, the operation's tally, and the exception that stopped the sweep, if any. */
  datatype Sweep = Sweep(overlay: MaterialVolumes.Volume, tally: LinearBlend.Tally, fault: Option<Fault>)

  /** The overlay is well formed and still has the target's shape. */
  ghost predicate Fits(st: Sweep, p: Pass) {
    MaterialVolumes.Wf(st.overlay) && st.overlay.shape == p.target
  }

  /**
   * One target voxel (x, y, z) from state st: skipped when unset; otherwise the structuring
   * element is accumulated around loc + (x, y, z) - origin, getResult decides (its exception
   * ends the sweep), the result is written into the overlay and the operation is reset.
   */
  function Step(st: Sweep, p: Pass, x: int, y: int, z: int): (r: Sweep)
    requires LinearBlend.ValidOrder(p.order) && Fits(st, p) && InBox(p.target, Vec3(x, y, z))
    ensures Fits(r, p)
    ensures st.fault.Some? || !p.target.bits[Cell(p.target, Vec3(x, y, z))] ==> r == st
    ensures r.fault.None? && r != st ==> r.tally == LinearBlend.Fresh()
    ensures r.fault.None? || r.fault == Some(NullPointer) || r == st
  {
    if st.fault.Some? || !p.target.bits[Cell(p.target, Vec3(x, y, z))] then st
    else
      var p0 := p.loc.Add(Vec3(x, y, z)).Sub(p.target.origin);
      var t := Kernel(st.tally, p, p0);
      match LinearBlend.Result(t, p.order(t.weights))
      case Thrown(f) => Sweep(st.overlay, t, Some(f))
      case Ok(mat) =>
        var e := MaterialVolumes.SetMaterial(st.overlay, x, y, z, false, mat);
        assert e.after.shape == p.target by {
          assert e.after.shape.bits == p.target.bits[Cell(p.target, Vec3(x, y, z)) := true];
        }
        Sweep(e.after, LinearBlend.Fresh(), None)
  }

  /** The state after voxel (x, y, z) of a z loop that started from st. */
  function Voxel(st: Sweep, p: Pass, x: int, y: int, z: int): (r: Sweep)
    requires LinearBlend.ValidOrder(p.order) && Fits(st, p)
    requires 0 <= x < p.target.width && 0 <= y < p.target.height && 0 <= z < p.target.length
    ensures Fits(r, p)
    ensures st.fault.Some? ==> r == st
    ensures st.tally == LinearBlend.Fresh() && r.fault.None? ==> r.tally == LinearBlend.Fresh()
    decreases z, 1
  {
    Step(SweepZ(st, p, x, y, z), p, x, y, z)
  }

  /** The z loop: voxels (x, y, 0) .. (x, y, n - 1). */
  function SweepZ(st: Sweep, p: Pass, x: int, y: int, n: int): (r: Sweep)
    requires LinearBlend.ValidOrder(p.order) && Fits(st, p)
    requires 0 <= x < p.target.width && 0 <= y < p.target.height && 0 <= n <= p.target.length
    ensures Fits(r, p)
    ensures st.fault.Some? ==> r == st
    ensures st.tally == LinearBlend.Fresh() && r.fault.None? ==> r.tally == LinearBlend.Fresh()
    decreases n, 0
  {
    if n == 0 then st else Voxel(st, p, x, y, n - 1)
  }

  /** The y loop: rows 0 .. n - 1 of column x. */
  function SweepY(st: Sweep, p: Pass, x: int, n: int): (r: Sweep)
    requires LinearBlend.ValidOrder(p.order) && Fits(st, p)
    requires 0 <= x < p.target.width && 0 <= n <= p.target.height
    ensures Fits(r, p)
    ensures st.fault.Some? ==> r == st
    ensures st.tally == LinearBlend.Fresh() && r.fault.None? ==> r.tally == LinearBlend.Fresh()
    decreases n
  {
    if n == 0 then st else SweepZ(SweepY(st, p, x, n - 1), p, x, n - 1, p.target.length)
  }

  /** The x loop: columns 0 .. n - 1. */
  function SweepX(st: Sweep, p: Pass, n: int): (r: Sweep)
    requires LinearBlend.ValidOrder(p.order) && Fits(st, p)
    requires 0 <= n <= p.target.width
    ensures Fits(r, p)
    ensures st.fault.Some? ==> r == st
    ensures st.tally == LinearBlend.Fresh() && r.fault.None? ==> r.tally == LinearBlend.Fresh()
    decreases n
  {
    if n == 0 then st else SweepY(SweepX(st, p, n - 1), p, n - 1, p.target.height)
  }

  /** Once getResult has thrown, the rest of a z loop changes nothing. */
  lemma {:induction false} ZStuck(st: Sweep, p: Pass, x: int, y: int, m: int, n: int)
    requires LinearBlend.ValidOrder(p.order) && Fits(st, p)
    requires 0 <= x < p.target.width && 0 <= y < p.target.height && 0 <= m <= n <= p.target.length
    requires SweepZ(st, p, x, y, m).fault.Some?
    ensures SweepZ(st, p, x, y, n) == SweepZ(st, p, x, y, m)
    decreases n
  {
    if n > m {
      ZStuck(st, p, x, y, m, n - 1);
      assert Voxel(st, p, x, y, n - 1) == Step(SweepZ(st, p, x, y, n - 1), p, x, y, n - 1);
    }
  }

  /** Once getResult has thrown, the rest of a y loop changes nothing. */
  lemma {:induction false} YStuck(st: Sweep, p: Pass, x: int, m: int, n: int)
    requires LinearBlend.ValidOrder(p.order) && Fits(st, p)
    requires 0 <= x < p.target.width && 0 <= m <= n <= p.target.height
    requires SweepY(st, p, x, m).fault.Some?
    ensures SweepY(st, p, x, n) == SweepY(st, p, x, m)
    decreases n
  {
    if n > m {
      YStuck(st, p, x, m, n - 1);
    }
  }

  /** Once getResult has thrown, the rest of the x loop changes nothing. */
  lemma {:induction false} XStuck(st: Sweep, p: Pass, m: int, n: int)
    requires LinearBlend.ValidOrder(p.order) && Fits(st, p)
    requires 0 <= m <= n <= p.target.width
    requires SweepX(st, p, m).fault.Some?
    ensures SweepX(st, p, n) == SweepX(st, p, m)
    decreases n
  {
    if n > m {
      XStuck(st, p, m, n - 1);
    }
  }

  /**
   * A processed voxel whose operation names a material of id below 256 reads back as that
   * material from the overlay, and the operation starts the next voxel empty.
   */
  lemma ProcessedVoxelHoldsResult(st: Sweep, p: Pass, x: int, y: int, z: int, mat: Material)
    requires LinearBlend.ValidOrder(p.order) && Fits(st, p) && InBox(p.target, Vec3(x, y, z))
    requires st.fault.None? && p.target.bits[Cell(p.target, Vec3(x, y, z))]
    requires var t := Kernel(st.tally, p, p.loc.Add(Vec3(x, y, z)).Sub(p.target.origin));
      LinearBlend.Result(t, p.order(t.weights)) == Ok(mat)
    requires 0 <= MaterialVolumes.Register(st.overlay, mat).1 < 256
    ensures var r := Step(st, p, x, y, z);
      && r.fault.None? && r.tally == LinearBlend.Fresh()
      && VolumeProperties.MaterialAt(r.overlay, Vec3(x, y, z)) == Ok(Some(mat))
  {
    VolumeProperties.SetThenGet(st.overlay, Vec3(x, y, z), mat);
  }

  /** A voxel whose operation meets a tie (or finds no winner) ends the sweep with NullPointerException. */
  lemma TiedVoxelThrows(st: Sweep, p: Pass, x: int, y: int, z: int)
    requires LinearBlend.ValidOrder(p.order) && Fits(st, p) && InBox(p.target, Vec3(x, y, z))
    requires st.fault.None? && p.target.bits[Cell(p.target, Vec3(x, y, z))]
    requires var t := Kernel(st.tally, p, p.loc.Add(Vec3(x, y, z)).Sub(p.target.origin));
      LinearBlend.Result(t, p.order(t.weights)).Thrown?
    ensures Step(st, p, x, y, z).fault == Some(NullPointer)
    ensures Step(st, p, x, y, z).overlay == st.overlay
  {
  }

  // ---------------------------------------------------------------------------
  // What a finished sweep leaves in the overlay.

  /** What getResult decides for target voxel q when the operation starts it empty. */
  function VoxelResult(p: Pass, q: Vec3): Outcome<Material>
    requires LinearBlend.ValidOrder(p.order)
  {
    var t := Kernel(LinearBlend.Fresh(), p, p.loc.Add(q).Sub(p.target.origin));
    LinearBlend.Result(t, p.order(t.weights))
  }

  /** Target voxel q of overlay v reads the material getResult decided for it. */
  ghost predicate Holds(v: MaterialVolumes.Volume, p: Pass, q: Vec3)
    requires MaterialVolumes.Wf(v) && LinearBlend.ValidOrder(p.order)
  {
    VoxelResult(p, q).Ok? && VolumeProperties.MaterialAt(v, q) == Ok(Some(VoxelResult(p, q).value))
  }

  /** The overlay's counter is one past its largest id, and the upper plane exists only once it is needed. */
  ghost predicate Counted(v: MaterialVolumes.Volume) {
    MaterialVolumes.NextIdTight(v) && VolumeProperties.UpperOnlyWhenWide(v)
  }

  /** Every id of `ids` fits one byte. */
  ghost predicate ByteIds(ids: set<int>) {
    forall k | k in ids :: 0 <= k < 256
  }

  /** A step never unbinds an id of the overlay. */
  lemma StepKeys(st: Sweep, p: Pass, x: int, y: int, z: int)
    requires LinearBlend.ValidOrder(p.order) && Fits(st, p) && InBox(p.target, Vec3(x, y, z))
    ensures st.overlay.dictionary.byId.Keys <= Step(st, p, x, y, z).overlay.dictionary.byId.Keys
  {
  }

  lemma {:induction false} ZKeys(st: Sweep, p: Pass, x: int, y: int, n: int)
    requires LinearBlend.ValidOrder(p.order) && Fits(st, p)
    requires 0 <= x < p.target.width && 0 <= y < p.target.height && 0 <= n <= p.target.length
    ensures st.overlay.dictionary.byId.Keys <= SweepZ(st, p, x, y, n).overlay.dictionary.byId.Keys
    decreases n
  {
    if n > 0 {
      ZKeys(st, p, x, y, n - 1);
      StepKeys(SweepZ(st, p, x, y, n - 1), p, x, y, n - 1);
      assert SweepZ(st, p, x, y, n) == Step(SweepZ(st, p, x, y, n - 1), p, x, y, n - 1);
    }
  }

  lemma {:induction false} YKeys(st: Sweep, p: Pass, x: int, n: int)
    requires LinearBlend.ValidOrder(p.order) && Fits(st, p)
    requires 0 <= x < p.target.width && 0 <= n <= p.target.height
    ensures st.overlay.dictionary.byId.Keys <= SweepY(st, p, x, n).overlay.dictionary.byId.Keys
    decreases n
  {
    if n > 0 {
      YKeys(st, p, x, n - 1);
      ZKeys(SweepY(st, p, x, n - 1), p, x, n - 1, p.target.length);
    }
  }

  lemma {:induction false} XKeys(st: Sweep, p: Pass, n: int)
    requires LinearBlend.ValidOrder(p.order) && Fits(st, p)
    requires 0 <= n <= p.target.width
    ensures st.overlay.dictionary.byId.Keys <= SweepX(st, p, n).overlay.dictionary.byId.Keys
    decreases n
  {
    if n > 0 {
      XKeys(st, p, n - 1);
      YKeys(SweepX(st, p, n - 1), p, n - 1, p.target.height);
    }
  }

  /**
   * One step that returns normally, from an empty operation, with every id it leaves
   * among the byte-sized `ids`: the voxel it processes reads its result, and every voxel
   * that already read its result still does.
   */
  lemma StepHolds(st: Sweep, p: Pass, c: Vec3, ids: set<int>)
    requires LinearBlend.ValidOrder(p.order) && Fits(st, p) && InBox(p.target, c)
    requires st.fault.None? && st.tally == LinearBlend.Fresh() && Counted(st.overlay)
    requires Step(st, p, c.x, c.y, c.z).fault.None?
    requires Step(st, p, c.x, c.y, c.z).overlay.dictionary.byId.Keys <= ids && ByteIds(ids)
    ensures var r := Step(st, p, c.x, c.y, c.z);
      && Counted(r.overlay)
      && (forall q | InBox(p.target, q) && Holds(st.overlay, p, q) :: Holds(r.overlay, p, q))
      && (p.target.bits[Cell(p.target, c)] ==> Holds(r.overlay, p, c))
  {
    var v := st.overlay;
    var r := Step(st, p, c.x, c.y, c.z);
    StepKeys(st, p, c.x, c.y, c.z);
    if p.target.bits[Cell(p.target, c)] {
      assert Vec3(c.x, c.y, c.z) == c;
      var mat := VoxelResult(p, c).value;
      assert r.overlay == MaterialVolumes.SetMaterial(v, c.x, c.y, c.z, false, mat).after;
      var (v1, id) := MaterialVolumes.Register(v, mat);
      assert v.nextId - 1 in ids;
      assert id in ids;
      VolumeProperties.SetThenGet(v, c, mat);
      forall q | InBox(p.target, q) && Holds(v, p, q)
        ensures Holds(r.overlay, p, q)
      {
        if q != c {
          VolumeProperties.SetLeavesOtherCells(v, c, mat, q);
        }
      }
    }
  }

  /** The z loop: voxels (x, y, 0) .. (x, y, n - 1) read their results, and earlier ones still do. */
  lemma {:induction false} ZHolds(st: Sweep, p: Pass, x: int, y: int, n: int, ids: set<int>)
    requires LinearBlend.ValidOrder(p.order) && Fits(st, p)
    requires 0 <= x < p.target.width && 0 <= y < p.target.height && 0 <= n <= p.target.length
    requires st.fault.None? && st.tally == LinearBlend.Fresh() && Counted(st.overlay)
    requires SweepZ(st, p, x, y, n).fault.None?
    requires SweepZ(st, p, x, y, n).overlay.dictionary.byId.Keys <= ids && ByteIds(ids)
    ensures var r := SweepZ(st, p, x, y, n);
      && Counted(r.overlay)
      && (forall q | InBox(p.target, q) && Holds(st.overlay, p, q) :: Holds(r.overlay, p, q))
      && (forall q | InBox(p.target, q) && p.target.bits[Cell(p.target, q)] && q.x == x && q.y == y && q.z < n ::
            Holds(r.overlay, p, q))
    decreases n
  {
    if n > 0 {
      var s := SweepZ(st, p, x, y, n - 1);
      var r := Step(s, p, x, y, n - 1);
      assert SweepZ(st, p, x, y, n) == r;
      StepKeys(s, p, x, y, n - 1);
      ZHolds(st, p, x, y, n - 1, ids);
      StepHolds(s, p, Vec3(x, y, n - 1), ids);
      forall q | InBox(p.target, q) && p.target.bits[Cell(p.target, q)] && q.x == x && q.y == y && q.z < n
        ensures Holds(r.overlay, p, q)
      {
        if q.z == n - 1 {
          assert q == Vec3(x, y, n - 1);
        }
      }
    }
  }

  /** The y loop: rows 0 .. n - 1 of column x read their results, and earlier voxels still do. */
  lemma {:induction false} YHolds(st: Sweep, p: Pass, x: int, n: int, ids: set<int>)
    requires LinearBlend.ValidOrder(p.order) && Fits(st, p)
    requires 0 <= x < p.target.width && 0 <= n <= p.target.height
    requires st.fault.None? && st.tally == LinearBlend.Fresh() && Counted(st.overlay)
    requires SweepY(st, p, x, n).fault.None?
    requires SweepY(st, p, x, n).overlay.dictionary.byId.Keys <= ids && ByteIds(ids)
    ensures var r := SweepY(st, p, x, n);
      && Counted(r.overlay)
      && (forall q | InBox(p.target, q) && Holds(st.overlay, p, q) :: Holds(r.overlay, p, q))
      && (forall q | InBox(p.target, q) && p.target.bits[Cell(p.target, q)] && q.x == x && q.y < n ::
            Holds(r.overlay, p, q))
    decreases n
  {
    if n > 0 {
      var s := SweepY(st, p, x, n - 1);
      ZKeys(s, p, x, n - 1, p.target.length);
      YHolds(st, p, x, n - 1, ids);
      ZHolds(s, p, x, n - 1, p.target.length, ids);
    }
  }

  /** The x loop: columns 0 .. n - 1 read their results. */
  lemma {:induction false} XHolds(st: Sweep, p: Pass, n: int, ids: set<int>)
    requires LinearBlend.ValidOrder(p.order) && Fits(st, p)
    requires 0 <= n <= p.target.width
    requires st.fault.None? && st.tally == LinearBlend.Fresh() && Counted(st.overlay)
    requires SweepX(st, p, n).fault.None?
    requires SweepX(st, p, n).overlay.dictionary.byId.Keys <= ids && ByteIds(ids)
    ensures var r := SweepX(st, p, n);
      && (forall q | InBox(p.target, q) && Holds(st.overlay, p, q) :: Holds(r.overlay, p, q))
      && (forall q | InBox(p.target, q) && p.target.bits[Cell(p.target, q)] && q.x < n :: Holds(r.overlay, p, q))
      && Counted(r.overlay)
    decreases n
  {
    if n > 0 {
      var s := SweepX(st, p, n - 1);
      YKeys(s, p, n - 1, p.target.height);
      XHolds(st, p, n - 1, ids);
      YHolds(s, p, n - 1, p.target.height, ids);
    }
  }

  // ---------------------------------------------------------------------------
  // run.

  /**
   * run, given the operation's tally when it starts: the result and the tally it leaves.
   * A missing shape or material aborts with a message; a missing target block throws
   * NoSuchElementException once the overlay exists.
   */
  function Execution(args: BrushVars, name: string, factory: (string, real) -> Option<Shape>,
               len: (int, int, int) -> real, order: map<Material, real> -> seq<Material>,
               scene: Scene, t0: LinearBlend.Tally): (r: (RunResult, LinearBlend.Tally))
    requires LinearBlend.ValidOrder(order)
    ensures r.0.Aborted? <==> args.shape.None? || args.material.None?
    ensures args.shape.None? ==> r == (Aborted(ShapeMissing(name)), t0)
    ensures args.shape.Some? && args.material.None? ==> r == (Aborted(MaterialMissing), t0)
    ensures r.0.Continued? ==> r.0.overlay.shape == args.shape.value && Some(r.0.location) == args.targetBlock
    ensures r.0.Failed? ==> r.0.fault == NoSuchElement || r.0.fault == NullPointer
    ensures t0 == LinearBlend.Fresh() && r.0.Continued? ==> r.1 == LinearBlend.Fresh()
    ensures r.0.Continued? ==> MaterialVolumes.Wf(r.0.overlay)
  {
    var excludeFluid := args.excludeFluid.GetOr(true);
    if args.shape.None? then (Aborted(ShapeMissing(name)), t0)
    else if args.material.None? then (Aborted(MaterialMissing), t0)
    else
      var se := StructuringElement(args, factory);
      var ms := MaterialVolumes.Constructed(args.shape.value, args.material.value);
      if args.targetBlock.None? then (Failed(NoSuchElement), t0)
      else
        var p := RunPass(args, factory, len, order, scene);
        var st := SweepX(Sweep(ms, t0, None), p, p.target.width);
        if st.fault.Some? then
          assert st.fault == Some(NullPointer) by { SweepFault(Sweep(ms, t0, None), p, p.target.width); }
          (Failed(st.fault.value), st.tally)
        else (Continued(p.loc, st.overlay), st.tally)
  }

  /** The only exception getResult raises is NullPointerException, so that is the only one a sweep ends with. */
  lemma {:induction false} SweepFault(st: Sweep, p: Pass, n: int)
    requires LinearBlend.ValidOrder(p.order) && Fits(st, p) && st.fault.None?
    requires 0 <= n <= p.target.width
    ensures SweepX(st, p, n).fault.None? || SweepX(st, p, n).fault == Some(NullPointer)
    decreases n
  {
    if n > 0 {
      SweepFault(st, p, n - 1);
      var sx := SweepX(st, p, n - 1);
      if sx.fault.None? {
        SweepYFault(sx, p, n - 1, p.target.height);
      }
    }
  }

  lemma {:induction false} SweepYFault(st: Sweep, p: Pass, x: int, n: int)
    requires LinearBlend.ValidOrder(p.order) && Fits(st, p) && st.fault.None?
    requires 0 <= x < p.target.width && 0 <= n <= p.target.height
    ensures SweepY(st, p, x, n).fault.None? || SweepY(st, p, x, n).fault == Some(NullPointer)
    decreases n
  {
    if n > 0 {
      SweepYFault(st, p, x, n - 1);
      var sy := SweepY(st, p, x, n - 1);
      if sy.fault.None? {
        SweepZFault(sy, p, x, n - 1, p.target.length);
      }
    }
  }

  lemma {:induction false} SweepZFault(st: Sweep, p: Pass, x: int, y: int, n: int)
    requires LinearBlend.ValidOrder(p.order) && Fits(st, p) && st.fault.None?
    requires 0 <= x < p.target.width && 0 <= y < p.target.height && 0 <= n <= p.target.length
    ensures SweepZ(st, p, x, y, n).fault.None? || SweepZ(st, p, x, y, n).fault == Some(NullPointer)
    decreases n
  {
    if n > 0 {
      SweepZFault(st, p, x, y, n - 1);
      assert Voxel(st, p, x, y, n - 1) == Step(SweepZ(st, p, x, y, n - 1), p, x, y, n - 1);
    }
  }

  /**
   * The prerequisite checks come before any world read: without a shape or a material
   * the outcome is the same whatever the world holds, and the operation is untouched.
   */
  lemma AbortsBeforeReads(args: BrushVars, name: string, factory: (string, real) -> Option<Shape>,
                          len: (int, int, int) -> real, order: map<Material, real> -> seq<Material>,
                          scene1: Scene, scene2: Scene, t0: LinearBlend.Tally)
    requires LinearBlend.ValidOrder(order)
    requires args.shape.None? || args.material.None?
    ensures Execution(args, name, factory, len, order, scene1, t0) == Execution(args, name, factory, len, order, scene2, t0)
    ensures Execution(args, name, factory, len, order, scene1, t0).1 == t0
  {
  }

  /** The pass run() sets up once the shape, the material and the target block are known. */
  function RunPass(args: BrushVars, factory: (string, real) -> Option<Shape>,
                   len: (int, int, int) -> real, order: map<Material, real> -> seq<Material>,
                   scene: Scene): (p: Pass)
    requires args.shape.Some? && args.targetBlock.Some?
    ensures p.target == args.shape.value && p.loc == args.targetBlock.value && p.order == order
    ensures p.excludeFluid <==> args.excludeFluid != Some(false)
  {
    Pass(len, order, scene, args.excludeFluid.GetOr(true), StructuringElement(args, factory),
         args.shape.value, args.targetBlock.value)
  }

  /**
   * The overlay of a run that continues, started with an empty operation: every set voxel
   * of the target shape holds the material getResult chose from that voxel's neighbourhood,
   * and every unset voxel reads empty. It needs every id the overlay bound to fit the byte
   * the narrow plane stores.
   */
  lemma RunOverlay(args: BrushVars, name: string, factory: (string, real) -> Option<Shape>,
                   len: (int, int, int) -> real, order: map<Material, real> -> seq<Material>,
                   scene: Scene)
    requires LinearBlend.ValidOrder(order)
    requires Execution(args, name, factory, len, order, scene, LinearBlend.Fresh()).0.Continued?
    requires ByteIds(Execution(args, name, factory, len, order, scene, LinearBlend.Fresh()).0.overlay.dictionary.byId.Keys)
    ensures var v := Execution(args, name, factory, len, order, scene, LinearBlend.Fresh()).0.overlay;
      var p := RunPass(args, factory, len, order, scene);
      forall q | InBox(args.shape.value, q) ::
        && (args.shape.value.bits[Cell(args.shape.value, q)] ==>
              VoxelResult(p, q).Ok? && VolumeProperties.MaterialAt(v, q) == Ok(Some(VoxelResult(p, q).value)))
        && (!args.shape.value.bits[Cell(args.shape.value, q)] ==> VolumeProperties.MaterialAt(v, q) == Ok(None))
  {
    var v := Execution(args, name, factory, len, order, scene, LinearBlend.Fresh()).0.overlay;
    var p := RunPass(args, factory, len, order, scene);
    var ms := MaterialVolumes.Constructed(args.shape.value, args.material.value);
    var st := Sweep(ms, LinearBlend.Fresh(), None);
    assert v == SweepX(st, p, p.target.width).overlay;
    XHolds(st, p, p.target.width, v.dictionary.byId.Keys);
  }

  // ---------------------------------------------------------------------------

  /** The abstract FilterBrush instantiated with the linear-blend operation. */
  class FilterBrush {
    const operation: LinearBlend.LinearBlendMaterialOperation
    /** getName(). */
    const name: string
    /** PrimativeShapeFactory.createShape. */
    const factory: (string, real) -> Option<Shape>

    constructor (operation: LinearBlend.LinearBlendMaterialOperation, name: string,
                 factory: (string, real) -> Option<Shape>)
      ensures this.operation == operation && this.name == name && this.factory == factory
    {
      this.operation := operation;
      this.name := name;
      this.factory := factory;
    }

    /** run(player, args): the result is returned instead of messaged and flushed. */
    method Run(args: BrushVars, scene: Scene) returns (r: RunResult)
      requires LinearBlend.ValidOrder(operation.order)
      modifies operation
      ensures (r, operation.Model()) ==
        Execution(args, name, factory, operation.len, operation.order, scene, old(operation.Model()))
    {
      var excludeFluid := true;
      if args.excludeFluid.Some? {
        excludeFluid := args.excludeFluid.value;
      }
      if args.shape.None? {
        return Aborted(ShapeMissing(name));
      }
      if args.material.None? {
        return Aborted(MaterialMissing);
      }
      var size := args.kernelSize.GetOr(1.0);
      var kernelString := args.kernel.GetOr("voxel");
      var se := factory(kernelString, size);
      if se.None? {
        se := Some(Fallback());
      }
      var l := args.targetBlock;
      var ms := new ComplexMaterialShapes.ComplexMaterialShape(args.shape.value, args.material.value);
      if l.None? {
        return Failed(NoSuchElement);
      }
      var loc := l.value;
      var shape := args.shape.value;
      var p := Pass(operation.len, operation.order, scene, excludeFluid, se.value, shape, loc);
      var fault := SweepTarget(ms, p);
      if fault.Some? {
        return Failed(fault.value);
      }
      return Continued(loc, ms.Model());
    }

    /** The x loop over the target shape; an exception from getResult ends it. */
    method SweepTarget(ms: ComplexMaterialShapes.ComplexMaterialShape, p: Pass) returns (fault: Option<Fault>)
      requires LinearBlend.ValidOrder(p.order) && p.len == operation.len && p.order == operation.order
      requires ms.Valid() && ms.shape == p.target
      modifies ms, ms.materialsA, ms.materialsB, operation
      ensures ms.Valid() && ms.shape == p.target
      ensures ms.materialsA == old(ms.materialsA)
      ensures old(ms.materialsB) != null ==> ms.materialsB == old(ms.materialsB)
      ensures old(ms.materialsB) == null && ms.materialsB != null ==> fresh(ms.materialsB)
      ensures Sweep(ms.Model(), operation.Model(), fault) ==
        SweepX(Sweep(old(ms.Model()), old(operation.Model()), None), p, p.target.width)
    {
      ghost var st := Sweep(ms.Model(), operation.Model(), None);
      var x := 0;
      while x < ms.shape.width
        invariant 0 <= x <= p.target.width
        invariant ms.Valid() && ms.shape == p.target
        invariant ms.materialsA == old(ms.materialsA)
        invariant old(ms.materialsB) != null ==> ms.materialsB == old(ms.materialsB)
        invariant old(ms.materialsB) == null && ms.materialsB != null ==> fresh(ms.materialsB)
        invariant SweepX(st, p, x) == Sweep(ms.Model(), operation.Model(), None)
      {
        assert SweepX(st, p, x + 1) == SweepY(SweepX(st, p, x), p, x, p.target.height);
        fault := SweepColumn(ms, p, x);
        if fault.Some? {
          XStuck(st, p, x + 1, p.target.width);
          return;
        }
        x := x + 1;
      }
      return None;
    }

    /** The y loop over column x. */
    method SweepColumn(ms: ComplexMaterialShapes.ComplexMaterialShape, p: Pass, x: int) returns (fault: Option<Fault>)
      requires LinearBlend.ValidOrder(p.order) && p.len == operation.len && p.order == operation.order
      requires ms.Valid() && ms.shape == p.target && 0 <= x < p.target.width
      modifies ms, ms.materialsA, ms.materialsB, operation
      ensures ms.Valid() && ms.shape == p.target
      ensures ms.materialsA == old(ms.materialsA)
      ensures old(ms.materialsB) != null ==> ms.materialsB == old(ms.materialsB)
      ensures old(ms.materialsB) == null && ms.materialsB != null ==> fresh(ms.materialsB)
      ensures Sweep(ms.Model(), operation.Model(), fault) ==
        SweepY(Sweep(old(ms.Model()), old(operation.Model()), None), p, x, p.target.height)
    {
      ghost var st := Sweep(ms.Model(), operation.Model(), None);
      var y := 0;
      while y < ms.shape.height
        invariant 0 <= y <= p.target.height
        invariant ms.Valid() && ms.shape == p.target
        invariant ms.materialsA == old(ms.materialsA)
        invariant old(ms.materialsB) != null ==> ms.materialsB == old(ms.materialsB)
        invariant old(ms.materialsB) == null && ms.materialsB != null ==> fresh(ms.materialsB)
        invariant SweepY(st, p, x, y) == Sweep(ms.Model(), operation.Model(), None)
      {
        assert SweepY(st, p, x, y + 1) == SweepZ(SweepY(st, p, x, y), p, x, y, p.target.length);
        fault := SweepRow(ms, p, x, y);
        if fault.Some? {
          YStuck(st, p, x, y + 1, p.target.height);
          return;
        }
        y := y + 1;
      }
      return None;
    }

    /** The z loop over row (x, y). */
    method SweepRow(ms: ComplexMaterialShapes.ComplexMaterialShape, p: Pass, x: int, y: int) returns (fault: Option<Fault>)
      requires LinearBlend.ValidOrder(p.order) && p.len == operation.len && p.order == operation.order
      requires ms.Valid() && ms.shape == p.target && 0 <= x < p.target.width && 0 <= y < p.target.height
      modifies ms, ms.materialsA, ms.materialsB, operation
      ensures ms.Valid() && ms.shape == p.target
      ensures ms.materialsA == old(ms.materialsA)
      ensures old(ms.materialsB) != null ==> ms.materialsB == old(ms.materialsB)
      ensures old(ms.materialsB) == null && ms.materialsB != null ==> fresh(ms.materialsB)
      ensures Sweep(ms.Model(), operation.Model(), fault) ==
        SweepZ(Sweep(old(ms.Model()), old(operation.Model()), None), p, x, y, p.target.length)
    {
      ghost var st := Sweep(ms.Model(), operation.Model(), None);
      var x0 := p.loc.x + x - p.target.origin.x;
      var y0 := p.loc.y + y - p.target.origin.y;
      var z := 0;
      while z < ms.shape.length
        invariant 0 <= z <= p.target.length
        invariant ms.Valid() && ms.shape == p.target
        invariant ms.materialsA == old(ms.materialsA)
        invariant old(ms.materialsB) != null ==> ms.materialsB == old(ms.materialsB)
        invariant old(ms.materialsB) == null && ms.materialsB != null ==> fresh(ms.materialsB)
        invariant SweepZ(st, p, x, y, z) == Sweep(ms.Model(), operation.Model(), None)
      {
        var z0 := p.loc.z + z - p.target.origin.z;
        fault := ProcessVoxel(ms, p, x, y, z, Vec3(x0, y0, z0), st);
        if fault.Some? {
          ZStuck(st, p, x, y, z + 1, p.target.length);
          return;
        }
        z := z + 1;
      }
      return None;
    }

    /**
     * The body of the z loop for target voxel (x, y, z) at world position p0: skipped when
     * unset, otherwise accumulate, getResult (whose exception is returned), write the
     * result into the overlay and reset.
     */
    method ProcessVoxel(ms: ComplexMaterialShapes.ComplexMaterialShape, p: Pass, x: int, y: int, z: int, p0: Vec3,
                        ghost st: Sweep)
        returns (fault: Option<Fault>)
      requires LinearBlend.ValidOrder(p.order) && p.len == operation.len && p.order == operation.order
      requires ms.Valid() && ms.shape == p.target && InBox(p.target, Vec3(x, y, z))
      requires p0 == p.loc.Add(Vec3(x, y, z)).Sub(p.target.origin)
      requires Fits(st, p)
      requires SweepZ(st, p, x, y, z) == Sweep(ms.Model(), operation.Model(), None)
      modifies ms, ms.materialsA, ms.materialsB, operation
      ensures ms.Valid() && ms.shape == p.target
      ensures ms.materialsA == old(ms.materialsA)
      ensures old(ms.materialsB) != null ==> ms.materialsB == old(ms.materialsB)
      ensures old(ms.materialsB) == null && ms.materialsB != null ==> fresh(ms.materialsB)
      ensures Sweep(ms.Model(), operation.Model(), fault) == SweepZ(st, p, x, y, z + 1)
    {
      assert SweepZ(st, p, x, y, z + 1) == Voxel(st, p, x, y, z) == Step(SweepZ(st, p, x, y, z), p, x, y, z);
      var isSet := Get(p.target, x, y, z, false);
      if isSet.value {
        Accumulate(p, p0);
        var result := operation.GetResult();
        if result.Thrown? {
          return Some(result.fault);
        }
        var again := operation.GetResult();
        var written := ms.SetMaterial(x, y, z, false, again.value);
        operation.Reset();
      }
      return None;
    }

    /** The three structuring-element loops around the target voxel at p0. */
    method Accumulate(p: Pass, p0: Vec3)
      requires p.len == operation.len
      modifies operation
      ensures operation.Model() == Kernel(old(operation.Model()), p, p0)
    {
      ghost var t0 := operation.Model();
      var a := 0;
      while a < p.se.width
        invariant 0 <= a <= p.se.width
        invariant operation.Model() == KernelA(t0, p, p0, a)
      {
        AccumulateSlice(p, p0, a);
        a := a + 1;
      }
    }

    /** The b loop of the structuring element at a. */
    method AccumulateSlice(p: Pass, p0: Vec3, a: int)
      requires p.len == operation.len && 0 <= a < p.se.width
      modifies operation
      ensures operation.Model() == KernelB(old(operation.Model()), p, p0, a, p.se.height)
    {
      ghost var t0 := operation.Model();
      var b := 0;
      while b < p.se.height
        invariant 0 <= b <= p.se.height
        invariant operation.Model() == KernelB(t0, p, p0, a, b)
      {
        AccumulateRow(p, p0, a, b);
        b := b + 1;
      }
    }

    /**
     * The c loop of the structuring element at (a, b): each set cell offers the block at
     * p0 + (a, b, c) - origin, unless fluids are excluded and that block is liquid.
     */
    method AccumulateRow(p: Pass, p0: Vec3, a: int, b: int)
      requires p.len == operation.len && 0 <= a < p.se.width && 0 <= b < p.se.height
      modifies operation
      ensures operation.Model() == KernelC(old(operation.Model()), p, p0, a, b, p.se.length)
    {
      ghost var t0 := operation.Model();
      var structElem := p.se;
      var c := 0;
      while c < structElem.length
        invariant 0 <= c <= structElem.length
        invariant operation.Model() == KernelC(t0, p, p0, a, b, c)
      {
        var cell := Get(structElem, a, b, c, false);
        if cell.value {
          var a0 := a - structElem.origin.x;
          var b0 := b - structElem.origin.y;
          var c0 := c - structElem.origin.z;
          if !(p.excludeFluid && p.scene.isLiquid(p.scene.blocks(p0.x + a0, p0.y + b0, p0.z + c0))) {
            var mat := p.scene.blocks(p0.x + a0, p0.y + b0, p0.z + c0);
            var voted := operation.CheckPosition(p0.x, p0.y, p0.z, a0, b0, c0, p.scene.blocks, mat);
          }
        }
        c := c + 1;
      }
    }
  }
}
