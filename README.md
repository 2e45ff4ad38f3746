# VoxelGunsmith voxel core, modelled in Dafny

This project models the core of VoxelGunsmith, a voxel-editing engine for block worlds, and proves properties of that model. It covers four parts.

- **`ComplexMaterialShape`**: the dictionary-compressed voxel volume behind every material shape. It combines an occupancy grid, a bimap between short ids and materials, and one or two byte planes indexed y-major by `getIndex`. The upper plane is allocated lazily once ids pass 255.
- **`FilterBrush.run` with `LinearBlendMaterialOperation`**: the morphological filter. For every set voxel of a target shape, it sweeps a structuring element, tallies the neighbours' materials by distance, and writes the winning material into a fresh overlay.
- **`AbstractPlayer`**: the FIFO of pending change queues, the processing flag, undo and redo forwarding, and the data-directory path.
- **`GetOverlappingChunksNode.exec`, `UndoCommand` and `RedoCommand`**: the chunk-column sweep with its de-duplicating collection, and the count parsing of `/undo [n]` and `/redo [n]`.

The code is modelled as written, including its mistakes. Each mistake has a lemma that exhibits it and a corrected definition with its intended property proved (see "## Findings").

Layout, one module per file:

- **`wrappers.dfy` (`Wrappers`)**: `Option`, Java exceptions as `Fault`, and `Outcome` (a value or a thrown exception).
- **`java_ints.dfy` (`JavaInts`)**: `short` wrap-around, the byte casts and masks, signed byte promotion, and truncating division.
- **`shapes.dfy` (`Shapes`)**: the occupancy grid, and `getIndex`, proved to be a bijection between the box and the plane indices.
- **`dictionary.dfy` (`Materials`, `Dictionaries`)**: materials as an abstract type, and the bimap with Guava's refusal of a value already bound to another key.
- **`material_volume.dfy` (`MaterialVolumes`)**: the abstract state of a `ComplexMaterialShape`, with every operation as a function on it.
- **`volume_properties.dfy` (`VolumeProperties`)**: round trips, frame properties, flood and layer properties, and the findings about the volume.
- **`complex_material_shape.dfy` (`ComplexMaterialShapes`)**: the class. It has `array` planes written in place, and each method is proved equal to its value-level operation through `Model()`. The triple loop of `flood` is proved through the partial-flood lemmas.
- **`linear_blend.dfy` (`LinearBlend`)**: the tally, `checkPosition` and the two loops of `getResult`, the bound that keeps scores non-negative, and the findings about `getResult`.
- **`filter_brush.dfy` (`FilterBrushes`)**: `run` as nested folds over the target shape and the structuring element. The class runs the six loops against those folds, writing into a `ComplexMaterialShape` overlay.
- **`player.dfy` (`Players`)**: the pending FIFO and the player class.
- **`chunks.dfy` (`OverlappingChunks`)**: the chunk index, the de-duplicated sweep, and `exec` as two loops proved against it.
- **`commands.dfy` (`Commands`)**: `Integer.parseInt` on decimal numerals, the clamped count, and both commands over a player or console sender.

The following collaborators become parameters, because their code is not part of this model:

- the world's blocks and the liquid test;
- the loaded chunks and the chunk size;
- the length function standing for `Math.sqrt`;
- the `HashMap` iteration order;
- the shape factory;
- the `ChangeQueue` and `UndoQueue` operations;
- the configured messages.

## Model

| member | source | states |
|---|---|---|
| Shapes.Cell | src/main/java/com/voxelplugineering/voxelsniper/shape/ComplexMaterialShape.java:327-330 | getIndex sends every in-box cell to an index inside the bit set and the planes |
| Shapes.IndexInRange | src/main/java/com/voxelplugineering/voxelsniper/shape/ComplexMaterialShape.java:327-330 | getIndex maps the width x height x length box into [0, width*height*length) |
| Shapes.IndexInjective | src/main/java/com/voxelplugineering/voxelsniper/shape/ComplexMaterialShape.java:327-330 | two in-box cells with the same getIndex are the same cell, so distinct cells never share a plane slot |
| Shapes.Coordinates | src/main/java/com/voxelplugineering/voxelsniper/shape/ComplexMaterialShape.java:327-330 | every plane index is getIndex of an in-box cell (the inverse of getIndex) |
| Shapes.IndexOnto | src/main/java/com/voxelplugineering/voxelsniper/shape/ComplexMaterialShape.java:327-330 | each plane index belongs to exactly one cell: Cell of its coordinates gives the index back |
| Shapes.Decompose | src/main/java/com/voxelplugineering/voxelsniper/shape/ComplexMaterialShape.java:327-330 | a plane index splits uniquely into x, then z, then y, and the box has positive width and length |
| Shapes.Get | src/main/java/com/voxelplugineering/voxelsniper/shape/ComplexMaterialShape.java:341-345 | the shape query succeeds exactly for addresses inside the box (after adding the origin when relative) and then reports that cell's bit |
| Shapes.Set | src/main/java/com/voxelplugineering/voxelsniper/shape/ComplexMaterialShape.java:347-351 | marking succeeds exactly inside the box, and the marked address then reads as set |
| Shapes.Unset | src/main/java/com/voxelplugineering/voxelsniper/shape/ComplexMaterialShape.java:360-364 | clearing succeeds exactly inside the box, and the cleared address then reads as unset |
| Shapes.Assign | src/main/java/com/voxelplugineering/voxelsniper/shape/ComplexMaterialShape.java:172 | changing one cell keeps the box's size and origin and changes only that cell's bit |
| Shapes.Cuboid | src/main/java/com/voxelplugineering/voxelsniper/brush/effect/morphological/FilterBrush.java:102 | the fallback cuboid has the given size and origin and every cell set |
| Dictionaries.ValidIsInjective | src/main/java/com/voxelplugineering/voxelsniper/shape/ComplexMaterialShape.java:69-70 | the two directions of the bimap agree, so no two ids name the same material |
| Dictionaries.Single | src/main/java/com/voxelplugineering/voxelsniper/shape/ComplexMaterialShape.java:72 | a fresh dictionary holding one binding is a consistent bimap |
| Dictionaries.Put | src/main/java/com/voxelplugineering/voxelsniper/shape/ComplexMaterialShape.java:268 | the bimap put throws IllegalArgumentException exactly when the material is already bound to another id; otherwise the id is (re)bound and the bimap stays consistent |
| Dictionaries.InversePut | src/main/java/com/voxelplugineering/voxelsniper/shape/ComplexMaterialShape.java:428-429 | a put on the inverse view throws exactly when the id is already bound to another material; otherwise the material is (re)bound and the bimap stays consistent |
| JavaInts.ShortWrap | src/main/java/com/voxelplugineering/voxelsniper/shape/ComplexMaterialShape.java:267 | the (short) narrowing lands in the short range, keeps shorts and differs from its input by a multiple of 65536 |
| JavaInts.LowByte | src/main/java/com/voxelplugineering/voxelsniper/shape/ComplexMaterialShape.java:131 | (byte)(data & 0xff) keeps values 0..255 and agrees with the input modulo 256 |
| JavaInts.HighByte | src/main/java/com/voxelplugineering/voxelsniper/shape/ComplexMaterialShape.java:139 | (byte)((data & 0xff00) >> 8) is 0 for ids below 256 and the high byte for ids below 65536 |
| JavaInts.Signed | src/main/java/com/voxelplugineering/voxelsniper/shape/ComplexMaterialShape.java:434 | a byte promoted to int lies in -128..127, equals its unsigned value exactly below 128 and agrees with it modulo 256 |
| JavaInts.Or | src/main/java/com/voxelplugineering/voxelsniper/shape/ComplexMaterialShape.java:123 | OR with a zero byte leaves the other byte unchanged |
| JavaInts.TruncDiv | src/main/java/com/voxelplugineering/voxelsniper/core/nodes/world/GetOverlappingChunksNode.java:79-80 | Java's int division by a positive divisor is floor division for non-negative dividends and rounds toward zero for negative ones |
| MaterialVolumes.Fill | src/main/java/com/voxelplugineering/voxelsniper/shape/ComplexMaterialShape.java:242 | Arrays.fill overwrites exactly the indices of [from, to) and keeps the length |
| MaterialVolumes.Zeros | src/main/java/com/voxelplugineering/voxelsniper/shape/ComplexMaterialShape.java:136 | a newly allocated plane has the requested length and holds only zero bytes |
| MaterialVolumes.ReadId | src/main/java/com/voxelplugineering/voxelsniper/shape/ComplexMaterialShape.java:117-126 | the private get yields 0..255, throws exactly when the upper plane is needed but was never allocated, and reads the lower byte while nextId is at most 255 |
| MaterialVolumes.WriteId | src/main/java/com/voxelplugineering/voxelsniper/shape/ComplexMaterialShape.java:128-141 | the private set stores the low byte at the index, stores bits 8..15 in the upper plane (allocating a zeroed plane on first use) once nextId exceeds 255, and changes no other index, id or material |
| MaterialVolumes.Lookup | src/main/java/com/voxelplugineering/voxelsniper/shape/ComplexMaterialShape.java:112 | Optional.of(dictionary.get(id)) succeeds exactly for bound ids and throws NullPointerException otherwise |
| MaterialVolumes.Register | src/main/java/com/voxelplugineering/voxelsniper/shape/ComplexMaterialShape.java:261-270 | a known material keeps its id and nothing changes; an unknown one is bound to nextId, which advances as a short; the returned id names the material afterwards and the planes are untouched; below the short limit nextId stays one past the largest bound id |
| MaterialVolumes.RegisterMaterial | src/main/java/com/voxelplugineering/voxelsniper/shape/ComplexMaterialShape.java:410-414 | the put throws exactly when the material is bound to another key (nothing changes); otherwise the key names the material and nextId becomes the larger of nextId and the key |
| MaterialVolumes.HasExtraData | src/main/java/com/voxelplugineering/voxelsniper/shape/ComplexMaterialShape.java:385-390 | while nextId is one past the largest bound id, extra data is reported exactly when some bound id exceeds 255 |
| MaterialVolumes.MaxMaterialId | src/main/java/com/voxelplugineering/voxelsniper/shape/ComplexMaterialShape.java:399-402 | the result bounds every bound id whenever all ids lie below nextId, and is itself bound while nextId is one past the largest bound id, so it is the largest id in use |
| MaterialVolumes.GetMaterial | src/main/java/com/voxelplugineering/voxelsniper/shape/ComplexMaterialShape.java:104-115 | an address whose shape cell is unset reads as empty, and any material returned is one the dictionary holds |
| MaterialVolumes.SetMaterial | src/main/java/com/voxelplugineering/voxelsniper/shape/ComplexMaterialShape.java:153-173 | setMaterial succeeds exactly for in-box addresses, throws ArrayIndexOutOfBoundsException before any change otherwise, and keeps the box's size and origin |
| MaterialVolumes.UnsetMaterial | src/main/java/com/voxelplugineering/voxelsniper/shape/ComplexMaterialShape.java:183-201 | unsetMaterial succeeds exactly for in-box addresses, throws before any change otherwise, and never touches the dictionary or the id counter |
| MaterialVolumes.MarkCell | src/main/java/com/voxelplugineering/voxelsniper/shape/ComplexMaterialShape.java:347-351 | the public set succeeds exactly in the box, afterwards the address reads as set, and the planes and dictionary are untouched |
| MaterialVolumes.Flood | src/main/java/com/voxelplugineering/voxelsniper/shape/ComplexMaterialShape.java:209-228 | flood keeps the shape and registers the material exactly as getOrRegisterMaterial does (cell contents: VolumeProperties.FloodReads) |
| MaterialVolumes.SetHorizontalLayer | src/main/java/com/voxelplugineering/voxelsniper/shape/ComplexMaterialShape.java:237-252 | setHorizontalLayer keeps the shape and always registers the material first, even when the fill then throws (range and cells: VolumeProperties.HorizontalLayerOutcome and HorizontalLayerCells) |
| MaterialVolumes.FillLayers | src/main/java/com/voxelplugineering/voxelsniper/shape/ComplexMaterialShape.java:240-251 | the fills succeed exactly for an ordered range inside the planes and change nothing when they throw |
| MaterialVolumes.SwapLowerPlane | src/main/java/com/voxelplugineering/voxelsniper/shape/ComplexMaterialShape.java:446-455 | the single-plane pass rewrites every byte by the same exchange rule, position by position |
| MaterialVolumes.SwapBothPlanes | src/main/java/com/voxelplugineering/voxelsniper/shape/ComplexMaterialShape.java:432-443 | the two-plane pass rewrites every pair of bytes by the same exchange rule, position by position |
| MaterialVolumes.SwapPlanes | src/main/java/com/voxelplugineering/voxelsniper/shape/ComplexMaterialShape.java:430-456 | the byte passes keep the shape, dictionary, counter and default, and whether an upper plane exists |
| MaterialVolumes.ThirdPutRefused | src/main/java/com/voxelplugineering/voxelsniper/shape/ComplexMaterialShape.java:426-428 | after the first two puts succeed, the inverse put of the new default to id 0 is always refused |
| MaterialVolumes.SetDefaultMaterial | src/main/java/com/voxelplugineering/voxelsniper/shape/ComplexMaterialShape.java:417-457 | the current default is a no-op; any other material becomes the default field and the call throws IllegalArgumentException while both planes stay untouched |
| MaterialVolumes.Constructed | src/main/java/com/voxelplugineering/voxelsniper/shape/ComplexMaterialShape.java:58-75 | a new shape binds only id 0, to the default, has nextId 1 (one past its largest id) and no upper plane, and stores 0 at set cells and the sentinel byte at unset ones |
| VolumeProperties.MaterialAtCell | src/main/java/com/voxelplugineering/voxelsniper/shape/ComplexMaterialShape.java:104-115 | for absolute addresses in the box, the shape test and the plane index refer to the same cell |
| VolumeProperties.ConstructedReadsDefault | src/main/java/com/voxelplugineering/voxelsniper/shape/ComplexMaterialShape.java:58-75 | a freshly constructed shape reads the default material at every set cell and nothing at every unset cell |
| VolumeProperties.RegisterAll | src/main/java/com/voxelplugineering/voxelsniper/shape/ComplexMaterialShape.java:261-270 | registering a sequence of materials returns one id per material and leaves the planes and shape alone |
| VolumeProperties.RegisterAllConsecutive | src/main/java/com/voxelplugineering/voxelsniper/shape/ComplexMaterialShape.java:261-270 | distinct new materials receive the consecutive ids nextId, nextId+1, ..., each id names its material afterwards, and earlier bindings survive |
| VolumeProperties.SetThenGet | src/main/java/com/voxelplugineering/voxelsniper/shape/ComplexMaterialShape.java:153-173 | setMaterial(p, m) then getMaterial(p) reads m back whenever m's id is below 256 |
| VolumeProperties.UnsetThenGet | src/main/java/com/voxelplugineering/voxelsniper/shape/ComplexMaterialShape.java:183-201 | unsetMaterial(p) then getMaterial(p) reads nothing |
| VolumeProperties.WriteLeavesOtherIndex | src/main/java/com/voxelplugineering/voxelsniper/shape/ComplexMaterialShape.java:128-141 | after the counter was raised (without changing the planes), the private set at one index leaves the id read at every other index unchanged, provided the upper plane exists only when nextId > 255 and that other index could be read before |
| VolumeProperties.SetLeavesOtherCells | src/main/java/com/voxelplugineering/voxelsniper/shape/ComplexMaterialShape.java:153-173 | setMaterial at p leaves what getMaterial reads at every other cell unchanged, provided nextId is unbound and below the short maximum, the upper plane exists only when nextId > 255, and the other cell could be read before |
| VolumeProperties.OtherCellKept | src/main/java/com/voxelplugineering/voxelsniper/shape/ComplexMaterialShape.java:128-141 | after the counter grows (binding at most the old nextId) and one index is written, every other cell reads the same material, provided nextId was unbound, the upper plane existed only when nextId > 255, and that cell could be read before |
| VolumeProperties.FloodReads | src/main/java/com/voxelplugineering/voxelsniper/shape/ComplexMaterialShape.java:209-228 | after flood(m) every set cell reads m (ids below 256) and every unset cell reads nothing |
| VolumeProperties.FloodIdempotent | src/main/java/com/voxelplugineering/voxelsniper/shape/ComplexMaterialShape.java:209-228 | flooding twice with the same material is the same as flooding once |
| VolumeProperties.CellInLayers | src/main/java/com/voxelplugineering/voxelsniper/shape/ComplexMaterialShape.java:240-241 | a cell lies in the index range of layers [y, y+h) exactly when its y lies in [y, y+h) |
| VolumeProperties.HorizontalLayerOutcome | src/main/java/com/voxelplugineering/voxelsniper/shape/ComplexMaterialShape.java:237-252 | on a box with positive width and length, setHorizontalLayer returns normally exactly when the layers lie within the height, and throws IllegalArgumentException exactly when h < 0 |
| VolumeProperties.HorizontalLayerCells | src/main/java/com/voxelplugineering/voxelsniper/shape/ComplexMaterialShape.java:237-252 | a successful setHorizontalLayer writes the low byte of the id at exactly the cells of layers [y, y+h) and keeps every other cell. Once nextId exceeds 255 the upper plane exists and holds the high byte in those layers. Elsewhere it keeps the old byte, or 0 when the call allocated it. Below that the upper plane is untouched. |
| VolumeProperties.WideIdMisread | src/main/java/com/voxelplugineering/voxelsniper/shape/ComplexMaterialShape.java:117-126 | as written, the material given id 256 does not read back after setMaterial |
| VolumeProperties.ReadIdIntended | src/main/java/com/voxelplugineering/voxelsniper/shape/ComplexMaterialShape.java:117-126 | the corrected get yields shorts and throws exactly when the needed upper plane is missing |
| VolumeProperties.SplitJoin | src/main/java/com/voxelplugineering/voxelsniper/shape/ComplexMaterialShape.java:128-141 | splitting a short into its low and high bytes and joining them with the shift gives it back |
| VolumeProperties.WriteThenReadIntended | src/main/java/com/voxelplugineering/voxelsniper/shape/ComplexMaterialShape.java:117-141 | with the shift, every short id written by the private set reads back at its index. This covers ids 0..255 while a single plane is in use. |
| VolumeProperties.RegisterMaterialReusesKey | src/main/java/com/voxelplugineering/voxelsniper/shape/ComplexMaterialShape.java:410-414 | as written, after registerMaterial(key, m1) with key >= nextId the next new material receives the same key and m1 loses its binding |
| VolumeProperties.RegisterMaterialHidesKey | src/main/java/com/voxelplugineering/voxelsniper/shape/ComplexMaterialShape.java:385-414 | as written, registerMaterial(key, m) with key >= nextId binds the key but leaves getMaxMaterialId at key - 1, so nextId is no longer one past the largest id. With key 256, hasExtraData is false although id 256 is bound. |
| VolumeProperties.RegisterMaterialIntended | src/main/java/com/voxelplugineering/voxelsniper/shape/ComplexMaterialShape.java:410-414 | the corrected registerMaterial throws in the same cases and binds the key the same way, and it keeps nextId one past the largest bound id |
| VolumeProperties.RegisterMaterialIntendedKeepsKey | src/main/java/com/voxelplugineering/voxelsniper/shape/ComplexMaterialShape.java:410-414 | with the counter moved past the key, the next new material gets another id and the key keeps m1 |
| VolumeProperties.SetDefaultMaterialBreaksDefault | src/main/java/com/voxelplugineering/voxelsniper/shape/ComplexMaterialShape.java:417-457 | as written, a failed setDefaultMaterial leaves the default field and id 0 naming different materials |
| VolumeProperties.SwapLowerExchanges | src/main/java/com/voxelplugineering/voxelsniper/shape/ComplexMaterialShape.java:446-455 | for ids 1..127 the single-plane pass exchanges 0 and the id byte by byte and keeps every other byte |
| VolumeProperties.SwapLowerSignedMiss | src/main/java/com/voxelplugineering/voxelsniper/shape/ComplexMaterialShape.java:448 | for ids 128..255 the signed compare never matches, so cells of that id keep it while zero bytes also receive it |
| VolumeProperties.ExchangeIntended | src/main/java/com/voxelplugineering/voxelsniper/shape/ComplexMaterialShape.java:417-429 | the corrected dictionary exchange leaves a consistent bimap with id 0 naming the new default |
| VolumeProperties.ExchangeKeepsMeaning | src/main/java/com/voxelplugineering/voxelsniper/shape/ComplexMaterialShape.java:417-429 | after the corrected exchange, the material that id k named before is named by k with 0 and the new material's id exchanged; the set of bound ids is unchanged |
| VolumeProperties.JoinedId | src/main/java/com/voxelplugineering/voxelsniper/shape/ComplexMaterialShape.java:117-126 | a cell's id under the intended join is a short, it is the lower byte below 256 ids, and it is what the corrected read returns wherever that read does not throw |
| VolumeProperties.SetDefaultMaterialIntended | src/main/java/com/voxelplugineering/voxelsniper/shape/ComplexMaterialShape.java:417-457 | the corrected setDefaultMaterial keeps a well-formed shape with the same occupancy and makes the new material the default |
| VolumeProperties.RelabelledId | src/main/java/com/voxelplugineering/voxelsniper/shape/ComplexMaterialShape.java:432-455 | the corrected pass compares ids unsigned, so every cell afterwards holds its old id with 0 and the new material's id exchanged, through both planes once wide |
| VolumeProperties.RelabelledLookup | src/main/java/com/voxelplugineering/voxelsniper/shape/ComplexMaterialShape.java:426-455 | an exchanged id names in the new dictionary exactly what the old id named, and unbound ids stay unbound |
| VolumeProperties.IntendedKeepsInvariants | src/main/java/com/voxelplugineering/voxelsniper/shape/ComplexMaterialShape.java:417-429 | after the corrected setDefaultMaterial, id 0 names the new default and nextId is still one past the largest bound id |
| VolumeProperties.SetDefaultMaterialIntendedKeepsCells | src/main/java/com/voxelplugineering/voxelsniper/shape/ComplexMaterialShape.java:417-457 | after the corrected setDefaultMaterial, id 0 names the new default and nextId is still one past the largest id. Every cell names the material it named before. Below 256 ids, getMaterial as written reads the same at every cell. |
| VolumeProperties.NarrowCellKept | src/main/java/com/voxelplugineering/voxelsniper/shape/ComplexMaterialShape.java:104-115 | below 256 ids, getMaterial as written reads every cell unchanged after the corrected setDefaultMaterial |
| VolumeProperties.SentinelMisread | src/main/java/com/voxelplugineering/voxelsniper/shape/ComplexMaterialShape.java:104-126 | as written, a cell unset and then marked again through the public set reads the unbound id 255 and getMaterial throws, instead of falling back to the default |
| VolumeProperties.ReadIdSentinel | src/main/java/com/voxelplugineering/voxelsniper/shape/ComplexMaterialShape.java:108-126 | the corrected read gives -1 exactly for the sentinel byte while nextId is at most 255, and ids in -1..254 there |
| VolumeProperties.SentinelReadsDefault | src/main/java/com/voxelplugineering/voxelsniper/shape/ComplexMaterialShape.java:104-115 | with the corrected read, a cell unset and marked again reads the default material |
| VolumeProperties.SentinelOnlyDifference | src/main/java/com/voxelplugineering/voxelsniper/shape/ComplexMaterialShape.java:104-126 | the corrected read agrees with getMaterial as written everywhere except at the sentinel byte |
| ComplexMaterialShapes.FloodPartial | src/main/java/com/voxelplugineering/voxelsniper/shape/ComplexMaterialShape.java:212-227 | the planes part-way through flood's triple loop are well formed and keep shape, dictionary, counter and default |
| ComplexMaterialShapes.SamePartial | src/main/java/com/voxelplugineering/voxelsniper/shape/ComplexMaterialShape.java:212-227 | two loop positions that have visited the same cells leave the same planes |
| ComplexMaterialShapes.FloodStart | src/main/java/com/voxelplugineering/voxelsniper/shape/ComplexMaterialShape.java:212 | before the first iteration the planes are unchanged |
| ComplexMaterialShapes.FloodStep | src/main/java/com/voxelplugineering/voxelsniper/shape/ComplexMaterialShape.java:218-224 | one inner iteration writes the id at a set cell and -1 at an unset one, and moves the loop position on by that cell |
| ComplexMaterialShapes.FloodRowEnd | src/main/java/com/voxelplugineering/voxelsniper/shape/ComplexMaterialShape.java:216 | leaving the z loop is the same as starting the next row |
| ComplexMaterialShapes.FloodLayerEnd | src/main/java/com/voxelplugineering/voxelsniper/shape/ComplexMaterialShape.java:214 | leaving the y loop is the same as starting the next column |
| ComplexMaterialShapes.FloodEnd | src/main/java/com/voxelplugineering/voxelsniper/shape/ComplexMaterialShape.java:209-228 | once the outer loop ends, the planes are flood's specification |
| ComplexMaterialShapes.ComplexMaterialShape.constructor | src/main/java/com/voxelplugineering/voxelsniper/shape/ComplexMaterialShape.java:58-75 | the new object's abstract value is the constructed volume, with a fresh lower plane and no upper plane |
| ComplexMaterialShapes.ComplexMaterialShape.IndexOf | src/main/java/com/voxelplugineering/voxelsniper/shape/ComplexMaterialShape.java:327-330 | getIndex of an in-box cell is that cell's plane index |
| ComplexMaterialShapes.ComplexMaterialShape.ReadAt | src/main/java/com/voxelplugineering/voxelsniper/shape/ComplexMaterialShape.java:117-126 | the array-level get returns the specified read of the abstract value |
| ComplexMaterialShapes.ComplexMaterialShape.WriteAt | src/main/java/com/voxelplugineering/voxelsniper/shape/ComplexMaterialShape.java:128-141 | the array-level set performs the specified write, reusing the lower array and allocating the upper array only when it was missing |
| ComplexMaterialShapes.ComplexMaterialShape.GetOrRegisterMaterial | src/main/java/com/voxelplugineering/voxelsniper/shape/ComplexMaterialShape.java:261-270 | the id returned and the new state are those of the specified registration; the arrays are untouched |
| ComplexMaterialShapes.ComplexMaterialShape.GetMaterial | src/main/java/com/voxelplugineering/voxelsniper/shape/ComplexMaterialShape.java:104-115 | the result is the specified getMaterial of the abstract value |
| ComplexMaterialShapes.ComplexMaterialShape.SetMaterial | src/main/java/com/voxelplugineering/voxelsniper/shape/ComplexMaterialShape.java:153-173 | the new state and outcome are those of the specified setMaterial |
| ComplexMaterialShapes.ComplexMaterialShape.UnsetMaterial | src/main/java/com/voxelplugineering/voxelsniper/shape/ComplexMaterialShape.java:183-201 | the new state and outcome are those of the specified unsetMaterial |
| ComplexMaterialShapes.ComplexMaterialShape.MarkCell | src/main/java/com/voxelplugineering/voxelsniper/shape/ComplexMaterialShape.java:347-351 | the new state and outcome are those of the specified public set |
| ComplexMaterialShapes.ComplexMaterialShape.Flood | src/main/java/com/voxelplugineering/voxelsniper/shape/ComplexMaterialShape.java:209-228 | the in-place triple loop leaves the abstract value specified by flood, in the same arrays |
| ComplexMaterialShapes.ComplexMaterialShape.FloodColumn | src/main/java/com/voxelplugineering/voxelsniper/shape/ComplexMaterialShape.java:214-226 | the y loop over column x advances the partial flood by one column |
| ComplexMaterialShapes.ComplexMaterialShape.FloodRow | src/main/java/com/voxelplugineering/voxelsniper/shape/ComplexMaterialShape.java:216-225 | the z loop over row (x, y) advances the partial flood by one row |
| ComplexMaterialShapes.ComplexMaterialShape.Reset | src/main/java/com/voxelplugineering/voxelsniper/shape/ComplexMaterialShape.java:336-339 | reset is flood with the default material |
| ComplexMaterialShapes.ComplexMaterialShape.FillRange | src/main/java/com/voxelplugineering/voxelsniper/shape/ComplexMaterialShape.java:242 | Arrays.fill throws IllegalArgumentException for a reversed range, ArrayIndexOutOfBoundsException for a range outside the array (changing nothing), and otherwise fills exactly the range |
| ComplexMaterialShapes.ComplexMaterialShape.SetHorizontalLayer | src/main/java/com/voxelplugineering/voxelsniper/shape/ComplexMaterialShape.java:237-252 | the new state and outcome are those of the specified setHorizontalLayer |
| ComplexMaterialShapes.ComplexMaterialShape.FillLayers | src/main/java/com/voxelplugineering/voxelsniper/shape/ComplexMaterialShape.java:242-251 | the fills of both planes, allocating the upper plane if needed, give the specified state and outcome |
| ComplexMaterialShapes.ComplexMaterialShape.RegisterMaterial | src/main/java/com/voxelplugineering/voxelsniper/shape/ComplexMaterialShape.java:410-414 | the new state and outcome are those of the specified registerMaterial |
| ComplexMaterialShapes.ComplexMaterialShape.HasExtraData | src/main/java/com/voxelplugineering/voxelsniper/shape/ComplexMaterialShape.java:385-390 | while nextId is one past the largest bound id, the answer is true exactly when some bound id exceeds 255 |
| ComplexMaterialShapes.ComplexMaterialShape.GetMaxMaterialId | src/main/java/com/voxelplugineering/voxelsniper/shape/ComplexMaterialShape.java:399-402 | the answer bounds every bound id when all lie below nextId, and is itself bound while nextId is one past the largest id |
| ComplexMaterialShapes.ComplexMaterialShape.SwapLower | src/main/java/com/voxelplugineering/voxelsniper/shape/ComplexMaterialShape.java:446-455 | the in-place single-plane pass gives the specified byte exchange |
| ComplexMaterialShapes.ComplexMaterialShape.SwapBoth | src/main/java/com/voxelplugineering/voxelsniper/shape/ComplexMaterialShape.java:432-443 | the in-place two-plane pass gives the specified byte exchange |
| ComplexMaterialShapes.ComplexMaterialShape.SetDefaultMaterial | src/main/java/com/voxelplugineering/voxelsniper/shape/ComplexMaterialShape.java:417-457 | the new state and outcome are those of the specified setDefaultMaterial |
| LinearBlend.Clamp | src/main/java/com/voxelplugineering/voxelsniper/brush/effect/morphological/LinearBlendMaterialOperation.java:67 | the clamped height lies in the bounds and equals the input when it already does |
| LinearBlend.Check | src/main/java/com/voxelplugineering/voxelsniper/brush/effect/morphological/LinearBlendMaterialOperation.java:61-81 | the centre offset changes nothing; any other offset counts one more neighbour, raises maxDistance to at least its length, adds that length to the weight of the material re-read at the clamped height, and keeps every other weight |
| LinearBlend.FreshBounded | src/main/java/com/voxelplugineering/voxelsniper/brush/effect/morphological/LinearBlendMaterialOperation.java:119-124 | a reset tally satisfies the weight bound |
| LinearBlend.CheckBounded | src/main/java/com/voxelplugineering/voxelsniper/brush/effect/morphological/LinearBlendMaterialOperation.java:61-81 | checkPosition keeps every weight at most count * maxDistance, so no score in getResult is negative |
| LinearBlend.Scan | src/main/java/com/voxelplugineering/voxelsniper/brush/effect/morphological/LinearBlendMaterialOperation.java:87-96 | the first loop's winner is one of the keys and n is that winner's weight; with no winner n stays 0 and no score was positive |
| LinearBlend.Result | src/main/java/com/voxelplugineering/voxelsniper/brush/effect/morphological/LinearBlendMaterialOperation.java:84-116 | getResult never returns empty: it returns one of the keys or throws NullPointerException, and throws for an empty map |
| LinearBlend.ResultExactly | src/main/java/com/voxelplugineering/voxelsniper/brush/effect/morphological/LinearBlendMaterialOperation.java:84-116 | getResult returns exactly when the first loop found a winner and no other key has the winner's weight |
| LinearBlend.TieThrows | src/main/java/com/voxelplugineering/voxelsniper/brush/effect/morphological/LinearBlendMaterialOperation.java:98-115 | two neighbours of equal weight make getResult throw in either iteration order, although the comment promises no change on a tie |
| LinearBlend.OrderDecides | src/main/java/com/voxelplugineering/voxelsniper/brush/effect/morphological/LinearBlendMaterialOperation.java:87-96 | the same tally gives different winners in different iteration orders |
| LinearBlend.OrderDecidesReachable | src/main/java/com/voxelplugineering/voxelsniper/brush/effect/morphological/LinearBlendMaterialOperation.java:61-81 | the tally of OrderDecides arises from three checkPosition calls on a fresh operation |
| LinearBlend.IntendedScan | src/main/java/com/voxelplugineering/voxelsniper/brush/effect/morphological/LinearBlendMaterialOperation.java:87-96 | the corrected first loop finds a key of highest positive score, with n that score |
| LinearBlend.IntendedResultUnique | src/main/java/com/voxelplugineering/voxelsniper/brush/effect/morphological/LinearBlendMaterialOperation.java:84-116 | the corrected result names k exactly when k's score is positive and beats every other key's, whatever the iteration order |
| LinearBlend.IntendedPrefersNearer | src/main/java/com/voxelplugineering/voxelsniper/brush/effect/morphological/LinearBlendMaterialOperation.java:86-96 | the corrected result keeps the score count * maxDistance - weight, so it picks the material of least summed distance: one neighbour of b beats twenty-five of a at the same distance, in either order |
| LinearBlend.LinearBlendMaterialOperation.constructor | src/main/java/com/voxelplugineering/voxelsniper/brush/effect/morphological/LinearBlendMaterialOperation.java:49-52 | a new operation starts from the reset tally |
| LinearBlend.LinearBlendMaterialOperation.CheckPosition | src/main/java/com/voxelplugineering/voxelsniper/brush/effect/morphological/LinearBlendMaterialOperation.java:61-81 | checkPosition updates the tally as specified and always returns false |
| LinearBlend.LinearBlendMaterialOperation.GetResult | src/main/java/com/voxelplugineering/voxelsniper/brush/effect/morphological/LinearBlendMaterialOperation.java:84-116 | the two loops over the map, in its iteration order, compute the specified result |
| LinearBlend.LinearBlendMaterialOperation.Reset | src/main/java/com/voxelplugineering/voxelsniper/brush/effect/morphological/LinearBlendMaterialOperation.java:119-124 | reset empties the tally |
| FilterBrushes.Fallback | src/main/java/com/voxelplugineering/voxelsniper/brush/effect/morphological/FilterBrush.java:100-103 | the fallback structuring element is the full 3x3x3 cuboid centred on (1, 1, 1) |
| FilterBrushes.KernelDefaults | src/main/java/com/voxelplugineering/voxelsniper/brush/effect/morphological/FilterBrush.java:95-103 | without a kernel name or size the factory is asked for a voxel of size 1; an unknown kernel gives the full 3x3x3 cuboid |
| FilterBrushes.LiquidNeverChecked | src/main/java/com/voxelplugineering/voxelsniper/brush/effect/morphological/FilterBrush.java:144-147 | with fluids excluded, a neighbour that tests as liquid never reaches checkPosition |
| FilterBrushes.ClampedLiquidCounted | src/main/java/com/voxelplugineering/voxelsniper/brush/effect/morphological/FilterBrush.java:144-152 | the liquid test reads the unclamped height while checkPosition re-reads the clamped one, so above height 255 a liquid block is counted although fluids are excluded |
| FilterBrushes.KernelBounded | src/main/java/com/voxelplugineering/voxelsniper/brush/effect/morphological/FilterBrush.java:128-155 | a whole structuring-element pass keeps the operation's weight bound |
| FilterBrushes.Step | src/main/java/com/voxelplugineering/voxelsniper/brush/effect/morphological/FilterBrush.java:123-162 | one target voxel: an unset cell or a stopped sweep changes nothing; a processed voxel leaves a reset operation; the only exception is NullPointerException |
| FilterBrushes.Voxel | src/main/java/com/voxelplugineering/voxelsniper/brush/effect/morphological/FilterBrush.java:120-163 | a stopped sweep stays stopped, and a sweep that starts with a reset operation keeps it reset while it runs |
| FilterBrushes.SweepZ | src/main/java/com/voxelplugineering/voxelsniper/brush/effect/morphological/FilterBrush.java:120-163 | the z loop keeps the overlay well formed, stays stopped once stopped, and keeps the operation reset |
| FilterBrushes.SweepY | src/main/java/com/voxelplugineering/voxelsniper/brush/effect/morphological/FilterBrush.java:117-164 | the y loop keeps the overlay well formed, stays stopped once stopped, and keeps the operation reset |
| FilterBrushes.SweepX | src/main/java/com/voxelplugineering/voxelsniper/brush/effect/morphological/FilterBrush.java:114-165 | the x loop keeps the overlay well formed, stays stopped once stopped, and keeps the operation reset |
| FilterBrushes.ZStuck | src/main/java/com/voxelplugineering/voxelsniper/brush/effect/morphological/FilterBrush.java:158-161 | once getResult has thrown, the rest of the z loop changes nothing |
| FilterBrushes.YStuck | src/main/java/com/voxelplugineering/voxelsniper/brush/effect/morphological/FilterBrush.java:117-164 | once getResult has thrown, the rest of the y loop changes nothing |
| FilterBrushes.XStuck | src/main/java/com/voxelplugineering/voxelsniper/brush/effect/morphological/FilterBrush.java:114-165 | once getResult has thrown, the rest of the x loop changes nothing |
| FilterBrushes.ProcessedVoxelHoldsResult | src/main/java/com/voxelplugineering/voxelsniper/brush/effect/morphological/FilterBrush.java:157-162 | a voxel whose operation names a material (id below 256) holds that material in the overlay afterwards, and the operation is reset |
| FilterBrushes.TiedVoxelThrows | src/main/java/com/voxelplugineering/voxelsniper/brush/effect/morphological/FilterBrush.java:158 | a voxel whose operation meets a tie ends the sweep with NullPointerException, leaving the overlay as it was |
| FilterBrushes.Execution | src/main/java/com/voxelplugineering/voxelsniper/brush/effect/morphological/FilterBrush.java:73-168 | run aborts exactly when the shape or the material is missing (with the matching message, operation untouched); a completed run flushes an overlay of the brush shape at the target block; the only failures are a missing target block and getResult's exception |
| FilterBrushes.RunPass | src/main/java/com/voxelplugineering/voxelsniper/brush/effect/morphological/FilterBrush.java:94-116 | the pass runs over the brush shape from the floored target block, with the given iteration order; fluids are excluded unless the brush says false |
| FilterBrushes.StepKeys | src/main/java/com/voxelplugineering/voxelsniper/brush/effect/morphological/FilterBrush.java:157-161 | processing one voxel never unbinds an id of the overlay |
| FilterBrushes.ZKeys | src/main/java/com/voxelplugineering/voxelsniper/brush/effect/morphological/FilterBrush.java:120-163 | the z loop never unbinds an id of the overlay |
| FilterBrushes.YKeys | src/main/java/com/voxelplugineering/voxelsniper/brush/effect/morphological/FilterBrush.java:117-164 | the y loop never unbinds an id of the overlay |
| FilterBrushes.XKeys | src/main/java/com/voxelplugineering/voxelsniper/brush/effect/morphological/FilterBrush.java:114-165 | the x loop never unbinds an id of the overlay |
| FilterBrushes.StepHolds | src/main/java/com/voxelplugineering/voxelsniper/brush/effect/morphological/FilterBrush.java:123-162 | with byte-sized ids, a voxel processed without a throw holds the material getResult chose from its own neighbourhood, earlier voxels keep theirs, and the overlay keeps nextId one past its largest id |
| FilterBrushes.ZHolds | src/main/java/com/voxelplugineering/voxelsniper/brush/effect/morphological/FilterBrush.java:120-163 | after the z loop, every set voxel of the row holds its own getResult, and earlier voxels keep theirs |
| FilterBrushes.YHolds | src/main/java/com/voxelplugineering/voxelsniper/brush/effect/morphological/FilterBrush.java:117-164 | after the y loop, every set voxel of the column holds its own getResult, and earlier voxels keep theirs |
| FilterBrushes.XHolds | src/main/java/com/voxelplugineering/voxelsniper/brush/effect/morphological/FilterBrush.java:114-165 | after the x loop, every set voxel of the target holds its own getResult |
| FilterBrushes.RunOverlay | src/main/java/com/voxelplugineering/voxelsniper/brush/effect/morphological/FilterBrush.java:106-166 | the overlay a completed run flushes, from a reset operation and with byte-sized ids: every set voxel of the brush shape holds the material getResult chose from that voxel's neighbourhood, and every unset voxel reads empty |
| FilterBrushes.SweepFault | src/main/java/com/voxelplugineering/voxelsniper/brush/effect/morphological/FilterBrush.java:114-165 | the only exception a sweep can end with is NullPointerException |
| FilterBrushes.AbortsBeforeReads | src/main/java/com/voxelplugineering/voxelsniper/brush/effect/morphological/FilterBrush.java:81-93 | the prerequisite checks come before any world read: an aborted run does not depend on the world and leaves the operation untouched |
| FilterBrushes.FilterBrush.constructor | src/main/java/com/voxelplugineering/voxelsniper/brush/effect/morphological/FilterBrush.java:65-68 | the brush holds the given operation |
| FilterBrushes.FilterBrush.Run | src/main/java/com/voxelplugineering/voxelsniper/brush/effect/morphological/FilterBrush.java:73-168 | the imperative run returns the specified outcome and leaves the operation in the specified state |
| FilterBrushes.FilterBrush.SweepTarget | src/main/java/com/voxelplugineering/voxelsniper/brush/effect/morphological/FilterBrush.java:114-165 | the x loop over the target, writing into the overlay object, gives the specified sweep state |
| FilterBrushes.FilterBrush.SweepColumn | src/main/java/com/voxelplugineering/voxelsniper/brush/effect/morphological/FilterBrush.java:117-164 | the y loop gives the specified sweep state |
| FilterBrushes.FilterBrush.SweepRow | src/main/java/com/voxelplugineering/voxelsniper/brush/effect/morphological/FilterBrush.java:120-163 | the z loop gives the specified sweep state |
| FilterBrushes.FilterBrush.ProcessVoxel | src/main/java/com/voxelplugineering/voxelsniper/brush/effect/morphological/FilterBrush.java:123-162 | one iteration of the z loop advances the sweep state by one voxel |
| FilterBrushes.FilterBrush.Accumulate | src/main/java/com/voxelplugineering/voxelsniper/brush/effect/morphological/FilterBrush.java:128-155 | the three structuring-element loops feed the operation the specified kernel |
| FilterBrushes.FilterBrush.AccumulateSlice | src/main/java/com/voxelplugineering/voxelsniper/brush/effect/morphological/FilterBrush.java:130-154 | the b loop feeds one slab of the structuring element |
| FilterBrushes.FilterBrush.AccumulateRow | src/main/java/com/voxelplugineering/voxelsniper/brush/effect/morphological/FilterBrush.java:132-153 | the c loop feeds one row of the structuring element, skipping unset and excluded liquid cells |
| Players.Head | src/main/java/com/voxelplugineering/voxelsniper/entity/AbstractPlayer.java:263-266 | the next pending change is empty exactly when nothing is pending, and is otherwise the oldest queue |
| Players.Added | src/main/java/com/voxelplugineering/voxelsniper/entity/AbstractPlayer.java:269-274 | a null queue is refused with NullPointerException and nothing changes; otherwise the reset queue joins the tail and everything before it stays |
| Players.Cleared | src/main/java/com/voxelplugineering/voxelsniper/entity/AbstractPlayer.java:277-283 | the head is dropped exactly when there is one and it is finished or the removal is forced; otherwise nothing changes |
| Players.ResetAll | src/main/java/com/voxelplugineering/voxelsniper/entity/AbstractPlayer.java:272 | each queue passed to addPending is reset, in order |
| Players.AddAllAppends | src/main/java/com/voxelplugineering/voxelsniper/entity/AbstractPlayer.java:269-274 | adding several queues appends their reset versions after what is pending, in order |
| Players.DrainInOrder | src/main/java/com/voxelplugineering/voxelsniper/entity/AbstractPlayer.java:263-283 | forced clearing hands out exactly the pending queues, oldest first |
| Players.Fifo | src/main/java/com/voxelplugineering/voxelsniper/entity/AbstractPlayer.java:263-283 | queues leave the pending list in the order they were added |
| Players.UnfinishedHeadStays | src/main/java/com/voxelplugineering/voxelsniper/entity/AbstractPlayer.java:277-283 | an unfinished head survives an unforced clear, and the next pending change is the same |
| Players.DataPath | src/main/java/com/voxelplugineering/voxelsniper/entity/AbstractPlayer.java:118-129 | the data path is the configured directory, one separator when it is non-empty and does not end with one, then the UUID or the name |
| Players.AbstractPlayer.constructor | src/main/java/com/voxelplugineering/voxelsniper/entity/AbstractPlayer.java:82-106 | a new player has nothing pending and is not processing |
| Players.AbstractPlayer.HasPendingChanges | src/main/java/com/voxelplugineering/voxelsniper/entity/AbstractPlayer.java:251-254 | pending changes are reported exactly when the next pending change is present |
| Players.AbstractPlayer.GetPendingChangeCount | src/main/java/com/voxelplugineering/voxelsniper/entity/AbstractPlayer.java:257-260 | the count is the number of pending queues, zero exactly when there is no next one |
| Players.AbstractPlayer.GetNextPendingChange | src/main/java/com/voxelplugineering/voxelsniper/entity/AbstractPlayer.java:263-266 | the peek returns the specified head |
| Players.AbstractPlayer.AddPending | src/main/java/com/voxelplugineering/voxelsniper/entity/AbstractPlayer.java:269-274 | the pending list and outcome are the specified ones; the other state is unchanged |
| Players.AbstractPlayer.ClearNextPending | src/main/java/com/voxelplugineering/voxelsniper/entity/AbstractPlayer.java:277-283 | the pending list is the specified one; the other state is unchanged |
| Players.AbstractPlayer.IsProcessing | src/main/java/com/voxelplugineering/voxelsniper/entity/AbstractPlayer.java:311-314 | returns the processing flag |
| Players.AbstractPlayer.SetProcessing | src/main/java/com/voxelplugineering/voxelsniper/entity/AbstractPlayer.java:316-320 | sets the processing flag and changes nothing else |
| Players.AbstractPlayer.UndoHistory | src/main/java/com/voxelplugineering/voxelsniper/entity/AbstractPlayer.java:237-241 | n goes to the history unchanged, and the count it reports is sent to the player with the undo message |
| Players.AbstractPlayer.RedoHistory | src/main/java/com/voxelplugineering/voxelsniper/entity/AbstractPlayer.java:244-248 | n goes to the history unchanged, and the count it reports is sent to the player with the redo message |
| Players.AbstractPlayer.SendMessage | src/main/java/com/voxelplugineering/voxelsniper/entity/AbstractPlayer.java:154-157 | the message is appended to what the player was sent |
| OverlappingChunks.GetChunk | src/main/java/com/voxelplugineering/voxelsniper/core/nodes/world/GetOverlappingChunksNode.java:78-80 | the world answers with the loaded chunk at those coordinates, and with empty exactly when none is loaded |
| OverlappingChunks.ChunkIndexFloor | src/main/java/com/voxelplugineering/voxelsniper/core/nodes/world/GetOverlappingChunksNode.java:79-80 | as written, the chunk index is the floor of column / size except at negative multiples of the size, where it is one lower |
| OverlappingChunks.NegativeMultipleMisplaced | src/main/java/com/voxelplugineering/voxelsniper/core/nodes/world/GetOverlappingChunksNode.java:79-80 | as written, column -16 with 16-wide chunks is given chunk -2, which does not contain it |
| OverlappingChunks.ChunkIndexIntendedContains | src/main/java/com/voxelplugineering/voxelsniper/core/nodes/world/GetOverlappingChunksNode.java:79-80 | the corrected index names the chunk whose columns contain the column, for every column |
| OverlappingChunks.IntendedDiffersOnlyAtNegativeMultiples | src/main/java/com/voxelplugineering/voxelsniper/core/nodes/world/GetOverlappingChunksNode.java:79-80 | the written and corrected indices differ exactly at negative multiples of the chunk size |
| OverlappingChunks.Present | src/main/java/com/voxelplugineering/voxelsniper/core/nodes/world/GetOverlappingChunksNode.java:81 | an absent answer contributes nothing and a present one its chunk |
| OverlappingChunks.Collect | src/main/java/com/voxelplugineering/voxelsniper/core/nodes/world/GetOverlappingChunksNode.java:83-86 | a chunk is appended exactly when it is present and not yet collected |
| OverlappingChunks.DedupMembers | src/main/java/com/voxelplugineering/voxelsniper/core/nodes/world/GetOverlappingChunksNode.java:81-87 | the collected list holds exactly the chunks met |
| OverlappingChunks.DedupDistinct | src/main/java/com/voxelplugineering/voxelsniper/core/nodes/world/GetOverlappingChunksNode.java:83-86 | the collected list holds no chunk twice |
| OverlappingChunks.DedupKeepsFirstOrder | src/main/java/com/voxelplugineering/voxelsniper/core/nodes/world/GetOverlappingChunksNode.java:83-86 | the collected list keeps the order in which its chunks were first met |
| OverlappingChunks.RowChunksSound | src/main/java/com/voxelplugineering/voxelsniper/core/nodes/world/GetOverlappingChunksNode.java:76-87 | every chunk met in a row was reported for one of its columns |
| OverlappingChunks.RowChunksComplete | src/main/java/com/voxelplugineering/voxelsniper/core/nodes/world/GetOverlappingChunksNode.java:76-87 | every chunk reported for a column of the row is met in the row |
| OverlappingChunks.SweepChunksSound | src/main/java/com/voxelplugineering/voxelsniper/core/nodes/world/GetOverlappingChunksNode.java:74-89 | every chunk met in the sweep was reported for a column of the offset box |
| OverlappingChunks.SweepChunksComplete | src/main/java/com/voxelplugineering/voxelsniper/core/nodes/world/GetOverlappingChunksNode.java:74-89 | every chunk reported for a column of the offset box is met in the sweep |
| OverlappingChunks.CollectStep | src/main/java/com/voxelplugineering/voxelsniper/core/nodes/world/GetOverlappingChunksNode.java:81-87 | collecting one more answer extends the deduplicated list as the contains/add test does |
| OverlappingChunks.RowCollectDedup | src/main/java/com/voxelplugineering/voxelsniper/core/nodes/world/GetOverlappingChunksNode.java:76-88 | the z loop, started from a deduplicated list, yields the deduplicated list extended by the row |
| OverlappingChunks.SweepCollectDedup | src/main/java/com/voxelplugineering/voxelsniper/core/nodes/world/GetOverlappingChunksNode.java:74-89 | the two loops yield the deduplicated list of everything met |
| OverlappingChunks.Exec | src/main/java/com/voxelplugineering/voxelsniper/core/nodes/world/GetOverlappingChunksNode.java:67-91 | exec collects, once each and in first-met order, the chunks of the columns of the box offset by minus the shape's origin |
| OverlappingChunks.CollectRow | src/main/java/com/voxelplugineering/voxelsniper/core/nodes/world/GetOverlappingChunksNode.java:76-88 | the z loop collects the row's chunks into the list as specified |
| Commands.ParseInt | src/main/java/com/voxelplugineering/voxelsniper/commands/UndoCommand.java:62 | Integer.parseInt accepts only an optional sign followed by digits and only values of an int; a leading '-' gives a value at most 0 and otherwise at least 0 |
| Commands.ParseShow | src/main/java/com/voxelplugineering/voxelsniper/commands/UndoCommand.java:62 | reading back the decimal numeral of k gives k exactly when k is an int, and fails otherwise |
| Commands.ParsePlus | src/main/java/com/voxelplugineering/voxelsniper/commands/UndoCommand.java:62 | an explicit '+' sign is accepted |
| Commands.LeadingZero | src/main/java/com/voxelplugineering/voxelsniper/commands/UndoCommand.java:62 | leading zeros do not change the value read |
| Commands.Count | src/main/java/com/voxelplugineering/voxelsniper/commands/UndoCommand.java:57-71 | the count is at least 1: 1 without arguments, the parsed first argument when it is at least 1, and 1 when it does not parse or is below 1 |
| Commands.CountIgnoresRest | src/main/java/com/voxelplugineering/voxelsniper/commands/UndoCommand.java:58-71 | arguments after the first are ignored |
| Commands.CountOfNumeral | src/main/java/com/voxelplugineering/voxelsniper/commands/UndoCommand.java:57-71 | /undo k counts k steps when k is a positive int and 1 step otherwise |
| Commands.Console.constructor | src/main/java/com/voxelplugineering/voxelsniper/commands/UndoCommand.java:54 | a console sender starts with no messages |
| Commands.Console.SendMessage | src/main/java/com/voxelplugineering/voxelsniper/commands/UndoCommand.java:54 | the message is appended to what the console was sent |
| Commands.Undo | src/main/java/com/voxelplugineering/voxelsniper/commands/UndoCommand.java:50-74 | a non-player is told the command is for players only; a player's history is undone Count(args) steps and the reported count is sent; the pending queue and processing flag are untouched; handled either way |
| Commands.Redo | src/main/java/com/voxelplugineering/voxelsniper/core/commands/RedoCommand.java:48-72 | a player's history is redone Count(args) steps and the reported count is sent; a non-player receives the red "player only" text; handled either way |

## Left out

- **`ComplexMaterialShape` scope**
  - `clone` returns null and `fillFrom` always throws, so neither has behaviour to state.
  - The getters that only return a field are not modelled: the shape, dictionary, planes and default material.
  - The shape is always the object's own copy. Aliasing of a caller's `ComplexShape` (the `isMutable` copy) is not modelled.
- **Null arguments:** materials and shapes are values that cannot be null, so the `NullPointerException`s of `checkNotNull(shape)` and `checkNotNull(defaultMaterial, ...)` in the constructor and of `checkNotNull(material)` in `setMaterial` are outside the model.
- **Frame lemmas:** VolumeProperties.SetLeavesOtherCells, VolumeProperties.WriteLeavesOtherIndex and VolumeProperties.OtherCellKept state the frame only for a counter that is unbound and does not wrap, and for a cell that could be read before. Without these conditions the frame does not hold: with nextId 255 and a cell holding the unbound sentinel byte 255, that cell throws, but it reads the new material once setMaterial elsewhere binds id 255.
- **Occupancy shape:** `ComplexShape` and `CuboidShape` are not part of this model. The grid is a value with the same y-major layout as the planes, and an address outside the box fails fast.
- **Java integer overflow**
  - `int` overflow is not modelled. This covers `getIndex`, the width*height*length allocation, the offsets in `run`, and `x - size` in the chunk index.
  - The `short` counter, the byte casts and the signed byte promotion are modelled exactly.
- **Floating point**
  - Distances and weights are reals, not IEEE doubles.
  - `Math.sqrt` is a length function parameter, assumed non-negative and positive off the centre.
  - The double target of `exec` is an integer block position, so its `(int)` casts are the identity.
  - `getFlooredX/Y/Z` in `run` are integer coordinates too.
- **`HashMap` iteration order:** a parameter that enumerates each key once.
- **Worlds and chunks**
  - `World.getBlock(...).get()` is a total function from block positions to materials. An absent block, whose `.get()` would throw, is not modelled.
  - `World.getChunk` is a map of loaded chunks. On-demand loading is not modelled.
- **`exec` preconditions and output**
  - `OverlappingChunks.Exec` requires positive chunk sizes. A zero size would make Java's division throw, and no world has one.
  - Publishing the result into the runtime state (`chunks.set(..., uuid)`) is not modelled: the method returns the array's contents.
- **`run` collaborators**
  - `ShapeChangeQueue.flush` is not modelled: `run` returns the overlay and the location it would flush.
  - Messages to the player become the `Aborted` message.
  - `PrimativeShapeFactory.createShape` is a function parameter.
  - Brush-variable typing is not modelled: each key is an `Option` of its type.
- **`AbstractPlayer` scope**
  - `ChangeQueue.reset/isFinished` and `UndoQueue.undo/redo` are function parameters. No bounded history or redo clearing is invented.
  - `init` is reduced to its path string. Also left out: `File`, `mkdirs`, `resetSettings`, the brush manager, the alias handler and `getTargetBlock`'s ray trace.
  - `sendMessage(format, args)` records the format and the count instead of calling `String.format`.
- **Commands**
  - `Integer.parseInt` is modelled on ASCII decimal numerals. Non-ASCII Unicode digits, which Java also accepts, are not.
  - Command registration is not modelled: names, aliases and permissions.
  - The player-only text and `TextFormat.RED` are string parameters.
- **Unreachable code in `setDefaultMaterial`:** its byte-rewrite passes follow puts that always throw. They are modelled as their own methods and functions (`SwapLower`, `SwapBoth`, `SwapPlanes`) but never reached.
- **`MaterialVolumes.GetMaterial` contract:** it states only the empty result for unset cells and that any result is a bound material. What a set cell reads is stated by `SetThenGet`, `FloodReads`, `ConstructedReadsDefault` and the findings.
- VolumeProperties.SetDefaultMaterialIntendedKeepsCells compares each cell with its state after the new material is registered, and it reads wide ids through the intended join. With 256 ids or more, getMaterial as written misreads ids (first Findings row), so the lemma claims nothing about that read.
- FilterBrushes.RunOverlay states the finished overlay only when every id the overlay bound is below 256. A run that binds 256 or more materials reads them back through the misreading `get` (first Findings row), so the lemma claims nothing about that read.
- **Loop splitting:** the inner loops of `flood`, `run` and `exec` are separate methods (`FloodColumn`, `FloodRow`, `SweepColumn`, `SweepRow`, `ProcessVoxel`, `AccumulateSlice`, `AccumulateRow`, `CollectRow`), each proved against the fold it runs.

## Findings

| source | as written | input that shows it | evidently intended | confidence | as-written member | corrected member |
|---|---|---|---|---|---|---|
| src/main/java/com/voxelplugineering/voxelsniper/shape/ComplexMaterialShape.java:117-126 | `get` ORs the upper byte into the lower one without shifting it by 8 | the 256th distinct material (id 256, bytes 0 and 1) set at a cell reads back as id 1 | join the bytes as `lower + (upper << 8)` | not executed | VolumeProperties.WideIdMisread | VolumeProperties.WriteThenReadIntended |
| src/main/java/com/voxelplugineering/voxelsniper/shape/ComplexMaterialShape.java:104-126 | `get` masks the lower byte, so the sentinel -1 (byte 0xFF) reads as 255 and the `== -1` fallback never fires | `unsetMaterial(p)`, then `set(p)`, then `getMaterial(p)` with fewer than 256 ids reads the unbound id 255 and throws | a stored -1 reads as the default material | not executed | VolumeProperties.SentinelMisread | VolumeProperties.SentinelReadsDefault |
| src/main/java/com/voxelplugineering/voxelsniper/shape/ComplexMaterialShape.java:417-457 | `materialDictionary.put(0, material)` binds a value that is already bound to `other` (or a later put clashes), so the exchange always throws `IllegalArgumentException` after the default field was replaced | any material other than the current default | exchange the ids 0 and `other` in the dictionary, then relabel the planes with an unsigned compare | not executed | VolumeProperties.SetDefaultMaterialBreaksDefault | VolumeProperties.SetDefaultMaterialIntendedKeepsCells |
| src/main/java/com/voxelplugineering/voxelsniper/shape/ComplexMaterialShape.java:410-414 | `registerMaterial` sets `nextId` to `max(nextId, key)`, not past the key | `registerMaterial(nextId, m1)`, then registering a new `m2`, gives `m2` the same key and drops `m1` | move `nextId` past the key | not executed | VolumeProperties.RegisterMaterialReusesKey | VolumeProperties.RegisterMaterialIntendedKeepsKey |
| src/main/java/com/voxelplugineering/voxelsniper/shape/ComplexMaterialShape.java:385-390 | `hasExtraData` compares `nextId` with 256 on the promise that `nextId` is one past the largest id, which `registerMaterial` breaks by leaving `nextId` at the key | `registerMaterial(256, m)` with `nextId` 256 binds id 256, yet `hasExtraData` is false and `getMaxMaterialId` is 255 | `nextId` one past every bound id, so both answers describe the ids in use | not executed | VolumeProperties.RegisterMaterialHidesKey | VolumeProperties.RegisterMaterialIntended |
| src/main/java/com/voxelplugineering/voxelsniper/brush/effect/morphological/LinearBlendMaterialOperation.java:98-115 | a tie returns `Optional.of(null)`, which throws `NullPointerException` | two neighbours of equal weight, in either iteration order | no change on a tie | not executed | LinearBlend.TieThrows | LinearBlend.IntendedResultUnique |
| src/main/java/com/voxelplugineering/voxelsniper/brush/effect/morphological/LinearBlendMaterialOperation.java:87-96 | `n` records the winner's weight but is compared with scores, so the winner depends on the map's iteration order | weights a=2, b=1, count 3, maxDistance 1: a wins in order [a, b], b in order [b, a] | pick the unique highest score `count * maxDistance - weight`, whatever the order. This keeps the score as written, which favours the material of least summed distance, not the most frequent one the comment at line 86 names (`LinearBlend.IntendedPrefersNearer`); the tally keeps no per-material counts to rank by frequency | not executed | LinearBlend.OrderDecides | LinearBlend.IntendedResultUnique |
| src/main/java/com/voxelplugineering/voxelsniper/core/nodes/world/GetOverlappingChunksNode.java:79-80 | `(x - size) / size` for negative x is one chunk too low at negative multiples of the size | column -16 with 16-wide chunks gives chunk -2 (columns -32..-17) | floor division, the chunk that holds the column | not executed | OverlappingChunks.NegativeMultipleMisplaced | OverlappingChunks.ChunkIndexIntendedContains |
