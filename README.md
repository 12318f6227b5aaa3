# MatterSlice layer sequencing and support, in Dafny

This project models three parts of the MatterSlice slicer and proves properties of the model:

- **The support pipeline of `NewSupport`.** A fixed chain of per-layer passes turns the part outlines of every layer into these stacks:
  - potential support;
  - required support, with self-supported sections pruned and, optionally, internal support removed;
  - the easy-grab expansion;
  - interface layers;
  - the downward accumulation;
  - the air-gapped bottoms;
  - the final support.
- **The integer polygon utilities of `PolygonHelper`.** These are:
  - centre of mass and `MinX`;
  - shape equality up to rotation;
  - vertex concavity and `convex3`;
  - the in-place vertex filter `OptimizePolygon`;
  - the (Y, X) point comparator;
  - the axis-aligned bounding box `Aabb`.
- **The sequencing decisions of `fffProcessor`.** These are:
  - the layer Z formula;
  - trimming empty layers off the top of the print;
  - the sliding window of layers whose insets are built;
  - the greedy nearest-inset order in which perimeters are printed, and why its loops end;
  - the best start point for a pass;
  - how lines are split around support;
  - how the head moves from island to island.

## How things are represented

**Regions.**
- A region (a C# `Polygons` used as an area) is a `set<IntPoint>`.
- Union, difference and intersection are `+`, `-` and `*` on sets.
- "`Count > 0`" on a region is read as "not empty".
- `Offset` and `CleanPolygons` belong to the Clipper library. They are the two function values of a `Clipper` datatype.
- Facts that need cleaning to be harmless are stated under `CleanShrinks`, where cleaning removes area only, or under `CleanExact`, where cleaning changes nothing.
- Each stack is a `seq<Region>` indexed by layer.
- Each pass is a method with the C# loop. Its postcondition ties the result to a function that states the per-layer formula.
- `RemoveSupportFromInternalSpaces` works in place on an `array`, as the C# does on its list.

**Mutable lists.**
- A mutable C# `List<T>` that the code shrinks or grows in place is the class `Collections.List<T>`, which holds a `seq` field.
- The per-depth inset lists of one island form one `List<Polygons>`.
- `QueueClosetsInset` receives that list and a depth index, where the C# receives the inner list itself.
- It removes the printed polygon from the entry at that index.

**The planner and outside code.**
- The G-code planner, the path finder and the path-order optimizer are outside the model.
- The planner is a queue of `Travel`, `Print` and `Retract` actions, plus its last position and its current path finder.
- Where the optimizer leaves the head is a function value.
- The geometric queries the sequencing makes go through the `PathOracle` datatype of function values. These are:
  - lengths;
  - closest points;
  - point-in-island tests;
  - the greatest turn;
  - overlap merging;
  - line clipping.
- `OracleValid` states the only facts assumed of them: every length is non-negative and strictly below `long.MaxValue`, and closest-point answers are in range.
- The termination of both inset loops of `QueueIslandPerimeters` rests on that strict bound. An unlimited `QueueClosetsInset` only picks an inset whose distance is below `long.MaxValue` (fffProcessor.cs:1193). A distance equal to it would print nothing, and `while (insetCount > 0)` (fffProcessor.cs:935, 964) would not end.

**Numbers.**
- Integers are unbounded.
- C#'s truncating division is `Geometry.TruncDiv`.
- A `long` coordinate is the subset type `Long`.

**Source details the model follows.**
- `CreateInterfaceLayers` adds the layers `i+1 .. min(i+n, N-2)` to layer `i`, exclusive of the end. The bound is `N-2`, not the stack length, and the model follows it (`InterfaceEnd`).
- `QueueClosetsInset` guards `bestPoint > -1` only. It reads `currentPolygon[bestPoint]`, so the model also needs `bestPoint < Count`. Under `OracleValid` the two guards agree.
- `fffProcessor.cs:294` calls a four-argument `NewSupport` constructor. `NewSupport.cs:71` has three arguments, and the model follows `NewSupport.cs`.

## Model

| member | source | states |
|---|---|---|
| NewSupport.CreateEmptyPolygons | NewSupport.cs:121-130 | exactly `numLayers` entries, every one empty |
| NewSupport.CalculateAllPartOutlines | NewSupport.cs:132-148 | one entry per layer of extruder 0; entry `i` is the union of layer `i` over all extruders |
| NewSupport.FindAllPotentialSupportOutlines | NewSupport.cs:150-164 | same length as the input; the top layer is empty; layer `i < N-1` is `Clean(parts[i+1] - parts[i])` |
| NewSupport.RemoveSelfSupportedSections | NewSupport.cs:166-190 | layer 0 is empty; a layer over an empty layer is copied unchanged; a layer over a non-empty layer is empty if it is empty itself, else the cleaned opening (offset by `-w/2`, then `w/2`, truncating) |
| NewSupport.RemoveSupportFromInternalSpaces | NewSupport.cs:104-119 | works in place and returns the same array; layer `i` becomes `Clean(input[i] - acc)`, where `acc` is the cleaned running union of part layers `0..i` |
| NewSupport.ExpandToEasyGrabDistance | NewSupport.cs:192-204 | same length; every layer is `Clean(Offset(input[i], grab))` |
| NewSupport.CreateInterfaceLayers | NewSupport.cs:274-296 | every layer is empty when `numInterfaceLayers <= 0`; otherwise layer `i` is `input[i]` with layers `i+1 .. min(i+n, N-2)` unioned in, cleaning after each |
| NewSupport.ClipToXyDistance | NewSupport.cs:298-313 | the top layer is empty; layer `i < N-1` is `Clean(input[i] - Offset(parts[i], xy))` |
| NewSupport.AccumulateDownPolygons | NewSupport.cs:231-254 | the top layer is empty; layer `i` is `Clean((down[i+1] + input[i+1] + input[i]) - parts[i])` |
| NewSupport.CreateAirGappedBottomLayers | NewSupport.cs:256-272 | layer 0 is empty; layer `i` is `parts[i-1] * input[i]` |
| NewSupport.CalculateDifferencePerLayer | NewSupport.cs:315-329 | the top layer is empty; layer `i < N-1` is `Clean(input[i] - remove[i])` |
| NewSupport.NewSupport.constructor | NewSupport.cs:71-102 | every stack has one entry per layer and holds what the passes compute, in the constructor's order, internal-space removal only when internal support is off |
| NewSupport.RequiredSupportBounds | NewSupport.cs:150-190 | with shrinking cleaning and opening, required support on layer `i` lies inside `parts[i+1] - parts[i]`; the first and the top layer require none |
| NewSupport.AccumulatedPartsIsUnion | NewSupport.cs:108-116 | with exact cleaning, the accumulator after `c` layers is exactly the union of part layers `0..c-1` |
| NewSupport.AccumulatedPartsWithinUnion | NewSupport.cs:108-116 | with shrinking cleaning, the accumulator never holds a point outside that union |
| NewSupport.InternalSupportRemoved | NewSupport.cs:104-119 | with exact cleaning, a point keeps its support on layer `i` iff no part layer `0..i` holds it |
| NewSupport.InterfaceAccumulationIsUnion | NewSupport.cs:283-291 | with exact cleaning, the interface accumulation is `input[i]` plus every layer in `i+1 .. j-1`, and nothing else |
| NewSupport.DownReachesEveryFreeLayer | NewSupport.cs:236-251 | with exact cleaning, support required on layer `j` reaches every layer `i < j` down to the first one where the model is |
| NewSupport.DownComesFromAbove | NewSupport.cs:236-251 | with shrinking cleaning, every point of the carried-down support comes from support required at that layer or above, with no model in between |
| NewSupport.SupportClearOfParts | NewSupport.cs:90-101 | on every layer, final support, interface and air-gapped bottoms are pairwise disjoint and clear of the XY-grown part; air-gapped bottoms sit on the part below; the top layer has none of them |
| NewSupport.NewSupport.GetRequiredSupportAreas | NewSupport.cs:60-69 | a non-empty answer is the required support stored for the layer below; `RequiredSupportAreasAreOverhangs` states what that area is |
| NewSupport.NewSupport.RequiredSupportAreasAreOverhangs | NewSupport.cs:60-69 | the areas for layer `L` are `required[L-1]`, which lie in `parts[L] - parts[L-1]`; layers `<= 1` and beyond the stack get none |
| NewSupport.NewSupport.GetBedOutlines | NewSupport.cs:206-209 | holds layer 0 of the support and of the interface, and no other point |
| NewSupport.NewSupport.BedOutlinesClearOfParts | NewSupport.cs:206-209 | the bed outlines do not meet the first part layer grown by the XY distance |
| PolygonHelper.CenterOfMass | MatterSliceLib/utils/PolygonHelper.cs:33-43 | the coordinate sums divided by the count, truncating toward zero; lies within the vertices' X and Y range |
| PolygonHelper.MinX | MatterSliceLib/utils/PolygonHelper.cs:117-129 | `long.MaxValue` on an empty polygon; otherwise at most every X and equal to some point's X |
| PolygonHelper.DescribesSameShape | MatterSliceLib/utils/PolygonHelper.cs:50-77 | true iff the counts match, `a` is non-empty, and `b`, read cyclically from the first occurrence of `a[0]`, equals `a` |
| PolygonHelper.SameShapeIsRotation | MatterSliceLib/utils/PolygonHelper.cs:58-73 | a true answer yields a rotation `k` with `b[k] == a[0]` and no earlier occurrence of `a[0]` |
| PolygonHelper.SameShapeReflexive | MatterSliceLib/utils/PolygonHelper.cs:58-73 | every non-empty polygon describes the same shape as itself |
| PolygonHelper.SameShapeAsWrittenExactWhenStartUnique | MatterSliceLib/utils/PolygonHelper.cs:58-73 | when `a[0]` occurs at most once in `b`, the answer is true iff `b` is a rotation of `a` |
| PolygonHelper.SameShapeMissesRotation | MatterSliceLib/utils/PolygonHelper.cs:58-73 | a pair where `b` is a rotation of `a` and the answer is false |
| PolygonHelper.DescribesSameShapeAnyStart | MatterSliceLib/utils/PolygonHelper.cs:50-77 | true iff `b` is some rotation of a non-empty `a` |
| PolygonHelper.IsVertexConcave | MatterSliceLib/utils/PolygonHelper.cs:103-115 | a concave vertex and its two cyclic neighbours are three distinct points; `ConvexAndConcaveAreOppositeTurns` and `ConcaveInReversed` carry its turn property |
| PolygonHelper.Convex3 | MatterSliceLib/utils/PolygonHelper.cs:214-223 | a strictly convex triple has three distinct points; `ConvexAndConcaveAreOppositeTurns` shows it is a strict left turn |
| PolygonHelper.ConvexAndConcaveAreOppositeTurns | MatterSliceLib/utils/PolygonHelper.cs:214-223 | `convex3` is a strictly positive cross product and `IsVertexConcave` a strictly negative one, with cyclic neighbours; never both |
| PolygonHelper.ConcaveInReversed | MatterSliceLib/utils/PolygonHelper.cs:103-115 | vertex `n-1-k` of the reversed polygon is concave iff vertex `k` of the original is strictly convex |
| PolygonHelper.OptimizePolygon | MatterSliceLib/utils/PolygonHelper.cs:131-169 | the list becomes the in-place filter of the original, with the index rewound after each removal |
| PolygonHelper.OptimizedIsSpacedSubsequence | MatterSliceLib/utils/PolygonHelper.cs:131-169 | the result is a subsequence of the original, no longer than it, with no two consecutive kept vertices too close |
| PolygonHelper.CompareYX | MatterSliceLib/utils/PolygonHelper.cs:227-240 | answers -1, 0 or 1; negative iff lexicographically smaller on (Y, X); zero iff the points are equal |
| PolygonHelper.CompareYXAntisymmetric | MatterSliceLib/utils/PolygonHelper.cs:227-240 | swapping the arguments negates the answer |
| PolygonHelper.CompareYXTransitive | MatterSliceLib/utils/PolygonHelper.cs:227-240 | `<= 0` is transitive |
| PolygonHelper.Aabb.constructor | MatterSliceLib/utils/PolygonHelper.cs:248-252 | both corners start at `(long.MinValue, long.MinValue)` |
| PolygonHelper.Aabb.FromPolygons | MatterSliceLib/utils/PolygonHelper.cs:254-259 | as `Calculate` |
| PolygonHelper.Aabb.Calculate | MatterSliceLib/utils/PolygonHelper.cs:261-275 | every point lies in the box and each side touches a point; with no points, min is `(Max, Max)` and max is `(Min, Min)` |
| PolygonHelper.Aabb.Hit | MatterSliceLib/utils/PolygonHelper.cs:277-284 | the overlap test, touching included; its properties are carried by `HitSymmetric` and `HitIffSharedPoint` |
| PolygonHelper.HitSymmetric | MatterSliceLib/utils/PolygonHelper.cs:277-284 | `a.Hit(b)` iff `b.Hit(a)` |
| PolygonHelper.HitIffSharedPoint | MatterSliceLib/utils/PolygonHelper.cs:277-284 | two non-inverted boxes hit iff some point lies in both |
| FffProcessor.LayerZ | fffProcessor.cs:499-512 | the layer's Z; `LayerZSpacing` and `RaftLift` state its spacing and raft offset |
| FffProcessor.LayerZSpacing | fffProcessor.cs:499-512 | layer 0 is at the first-layer thickness (raised by the raft and its air gap); layers above are one layer thickness apart, and layer 1 is one thickness minus the raft air gap above layer 0 |
| FffProcessor.RaftLift | fffProcessor.cs:499-512 | a raft raises every layer by base + interface + surface layers × surface thickness, and layer 0 by the raft air gap as well |
| FffProcessor.TrimEmptyTopLayers | fffProcessor.cs:396-427 | the count is 0, or its last layer has an island with a non-empty outline in some extruder; no layer from the count up to the starting count has one |
| FffProcessor.InsetWindow | fffProcessor.cs:669-670 | a layer is in the window iff it exists and lies within `[L - bottom - 1, L + top + 1]` |
| FffProcessor.InsetCount | fffProcessor.cs:687-692 | the perimeter count, plus one iff spiralizing on an odd layer (C# remainder, so non-negative) below the bottom layers |
| FffProcessor.FffProcessor.GenerateInsetsIfMissing | fffProcessor.cs:683-702 | insets are made once, with first-layer widths on layer 0, only for a layer with islands and none made yet |
| FffProcessor.FffProcessor.GenerateMissingInsets | fffProcessor.cs:679-703 | exactly the window's layers that have islands and no insets get one request; everything else is untouched |
| FffProcessor.FffProcessor.CreateRequiredInsets | fffProcessor.cs:665-718 | as above over the window; only layer `start-2` is freed, and only when `start > bottom + 1`; tops and bottoms are requested unless spiralizing above the bottom layers |
| FffProcessor.ScanMinimum | fffProcessor.cs:1186-1199 | the running minimum: -1 with the bound when nothing is below it, else the first candidate strictly nearer than every earlier one and no farther than any later one |
| FffProcessor.ClosestInsetIsFirstNearest | fffProcessor.cs:1176-1199 | the pick is -1 iff no inset is within range (four widths when limited); otherwise it is the first strictly nearest; unlimited, a list whose first polygon is non-empty always yields a pick |
| FffProcessor.FffProcessor.FindClosestInset | fffProcessor.cs:1176-1199 | the selection loop picks that inset |
| FffProcessor.FffProcessor.QueueClosetsInset | fffProcessor.cs:1174-1217 | with a pick: exactly that polygon is removed, it is queued (merged or support-aware), and the answer is true; with none: lists and planner are unchanged and `limitDistance` is answered |
| FffProcessor.TotalCountZero | fffProcessor.cs:1219-1228 | the total is zero iff every list is empty |
| FffProcessor.TotalCountUpdate | fffProcessor.cs:1219-1228 | replacing one list changes the total by the change in its length |
| FffProcessor.CountInsetsToPrint | fffProcessor.cs:1219-1228 | the sum of the list lengths |
| FffProcessor.NonEmptyPolygonsKeepsTheRest | fffProcessor.cs:899-912 | a polygon is kept iff it was there and is non-empty |
| FffProcessor.BuildInsetLists | fffProcessor.cs:897-911 | one fresh list per inset depth, in order, holding that depth's non-empty polygons |
| FffProcessor.PassStepLists | fffProcessor.cs:1201-1214 | one step leaves the lists alone or removes exactly one polygon from one list, lowering the total by one and keeping all polygons non-empty |
| FffProcessor.FffProcessor.PassStep | fffProcessor.cs:991-996 | queues exactly what `QueueClosetsInset` queues for the nearest inset of its depth, printed with the override config if there is one, else the outer config for depth 0 and the inner one below; nothing is queued when no inset is picked; the total never grows, and an unlimited step that prints nothing means the list is empty and the limit stays off |
| FffProcessor.FffProcessor.OutsideFirstPass | fffProcessor.cs:937-948 | a pass that starts with something to print prints at least one inset and keeps every config's closed-loop flag |
| FffProcessor.FffProcessor.QueueInsetsOutsideFirst | fffProcessor.cs:934-950 | the loop ends, and every list is then empty |
| FffProcessor.FffProcessor.TravelToInnermostStart | fffProcessor.cs:971-988 | no move without a best point on the outer insets; otherwise one travel, to the innermost insets' point closest to it, or to the best point itself when they have none |
| FffProcessor.FffProcessor.InsideOutPass | fffProcessor.cs:966-1000 | a pass that starts with something to print prints at least one inset, keeps every remaining inset non-empty, and restores the configs' flags |
| FffProcessor.FffProcessor.QueueInsetsInsideOut | fffProcessor.cs:955-1003 | with nothing to print, the queue gains exactly the thin-wall travel to the outline's first point (when thin walls are expanded and the outline has a point) and nothing else; otherwise the loop ends, and every list is then empty |
| FffProcessor.FffProcessor.BestPointIsNearestTurn | fffProcessor.cs:1152-1172 | the sentinel `(long.MinValue, long.MinValue)` iff no turn is nearer than `long.MaxValue`; otherwise the turn of the first strictly nearest polygon |
| FffProcessor.FffProcessor.FindBestPoint | fffProcessor.cs:1152-1172 | the loop answers that best point |
| FffProcessor.FffProcessor.QueueIslandPerimeters | fffProcessor.cs:887-1003 | nothing when there are no perimeters; spiralize turns on once continuous spiral is set and the layer index reaches the bottom-layer count; spiralizing queues only the first outer perimeter; otherwise every inset list ends empty; closed-loop flags restored |
| FffProcessor.SplitSidesExclusive | fffProcessor.cs:1415-1446 | splitting for the air gap never adds to the normal list, and splitting for normal height never adds to the air-gap list |
| FffProcessor.LinesMissingSupportKept | fffProcessor.cs:1425-1434 | at normal height every line missing the support is kept whole; every kept piece is a line or part of a line's clipped difference |
| FffProcessor.FffProcessor.GetSegmentsConsideringSupport | fffProcessor.cs:1415-1446 | appends exactly the normal-height and air-gap parts of the converted lines to the two lists |
| FffProcessor.FffProcessor.QueuePolygonsConsideringSupport | fffProcessor.cs:1358-1413 | the config's closed-loop flag is restored; a check-only call queues nothing; with support off or no support here, only `UnsupportedAreas` queues; the answer is whether anything was (or would be) output |
| FffProcessor.FffProcessor.QueuePerimeterWithMergOverlaps | fffProcessor.cs:720-743 | queues the merged paths, as an open path, when merging a perimeter of more than two points leaves any; else the perimeter itself; the closed-loop flag is restored |
| FffProcessor.FffProcessor.MoveToIsland | fffProcessor.cs:1081-1150 | no-op when spiralizing or with an empty outline; with one island or the head already inside, bookkeeping only; otherwise travels only, optionally retracting just before the final travel to the outline's closest point; the island and its path finder become current |

## Left out

- GetFanSpeed (fffProcessor.cs:745-779): it works on a floating-point layer time.
- Polygon file output and layer dumps: `SaveToGCode` in PolygonHelper.cs and `DumpLayerparts` in layerPart.cs are file I/O with float formatting.
- CreateConvexHull: `GrahamScan` is not part of this model.
- getBoundaryPointWithOffset: it uses square-root vector helpers.
- Inside, Orientation, Reverse and size: one-line wrappers around Clipper or `List`.
- The vector helpers `Length`, `Normal`, `SetLength` and `IsShorterThen`: they are oracle function values, with nothing assumed beyond the range of `Length`.
- PushUpTops (NewSupport.cs:211-229): it returns its input before doing anything.
- QueueNormalSupportLayer and QueueAirGappedBottomLayer: thin calls into infill and the planner.
- Infill: `CalculateInfillData`, infill generation, thin-gap filling, the bridge fan command that picks the override config, skirt, raft and wipe tower output.
- The Clipper library, the path finder, the path-order optimizer, G-code export, inset generation (`GenerateInsets`) and top/bottom generation (`GenerateTopAndBottoms`). Each is abstract: a set operation, an oracle function value, or a request recorded on the layer.
- Orchestration and I/O: loading and slicing files, writing comments, cancelling, and the end-to-end test that parses G-code output.
- NewSupport.NewSupport.constructor: it takes the easy-grab distance in micrometres. The `(int)(grabDistanceMm * 1000)` conversion from a double is not modelled.
- IsVertexConcave: the cross product is on unbounded integers; a 64-bit overflow in C# for coordinates above about 2^31 is not modelled.
- Convex3: the same 64-bit overflow is not modelled.
- CenterOfMass: the coordinate sums are unbounded; a `long` overflow of the sum is not modelled.
- NewSupport.NewSupport.GetBedOutlines: it requires the support and interface stacks to have a layer 0. On a print with no layers the C# `supportOutlines[0]` throws (NewSupport.cs:208), and the model has no exception path.
- FffProcessor.FffProcessor.InsideOutPass: the order in which a pass visits the depths (innermost to outermost, fffProcessor.cs:970) is in the method's loop but in no `ensures`. The contract states only that the pass prints at least one inset, along with the list and flag invariants.
- PolygonHelper.CenterOfMass: it requires a non-empty polygon. On an empty one the C# divides by a zero count and throws (PolygonHelper.cs:40), and the model has no exception path.
- NewSupport.CalculateAllPartOutlines: it requires every extruder to have at least as many layers as extruder 0 (`ExtrudersAligned`). A shorter extruder makes `extruder.Layers[layerIndex]` throw (NewSupport.cs:143), and the model has no exception path.
- FffProcessor.TrimEmptyTopLayers: it requires at least one extruder, and every extruder to have at least the starting layer count. The C# reads `Extruders[0]` and `Layers[layerIndex]` of every extruder (fffProcessor.cs:396, 411). It throws when there is no extruder, when an extruder is shorter, or when `outputOnlyFirstLayer` is set and there are no layers. The model has no exception path.
- FffProcessor.FffProcessor.QueueIslandPerimeters: when spiralizing it requires the first depth's list to be non-empty, where C# would throw on `InsetToolPaths[0][0]`.
- FffProcessor.FffProcessor.CreateRequiredInsets: it requires a non-negative bottom-layer count, where C# would index layer `startIndex - 2 < 0` and throw.
- FffProcessor.FffProcessor.MoveToIsland: it requires a non-empty outline to hold a point, where C# would index with the closest-point search's `-1` and throw.
- FffProcessor.FffProcessor.QueueClosetsInset: what the planner's optimizer does with the queued polygons (their order and the head's path) is outside the model. The queue records the request.
- The air-gapped pass height `LayerZ + SupportAirGap` (fffProcessor.cs:620-621) is `FffProcessor.AirGappedLayerZ`, a definition with no separate property.
- Concurrency and cancellation polling are not modelled.

## Findings

| source | as written | input that shows it | evidently intended | confidence | as-written member | corrected member |
|---|---|---|---|---|---|---|
| MatterSliceLib/utils/PolygonHelper.cs:58-73 | only the first index of `b` equal to `a[0]` is tried as the start; if that rotation fails the answer is false | `a = [(0,0), (1,0), (0,0), (0,1)]`, `b = [(0,0), (0,1), (0,0), (1,0)]`: `b` is `a` rotated by 2, but the rotation from index 0 fails | try every start in `b` whose point equals `a[0]` and answer true if any matches | medium, not executed | PolygonHelper.SameShapeMissesRotation | PolygonHelper.DescribesSameShapeAnyStart |
