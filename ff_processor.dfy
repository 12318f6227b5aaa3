/**
 * fffProcessor: the decisions the slicer makes while turning layers into
 * planner actions: which layers to print, at what height, which insets to
 * build, the order in which perimeters are printed, how lines are split
 * around support, and how the head moves between islands.
 */
module FffProcessor {
  import opened Geometry
  import opened Collections
  import opened Planner
  import opened SliceData
  import NS = NewSupport

  /** The ConfigSettings values the modelled code reads. */
  datatype ConfigSettings = ConfigSettings(
    generateSupport: bool,
    continuousSpiralOuterPerimeter: bool,
    outputOnlyFirstLayer: bool,
    firstLayerThicknessUm: int,
    layerThicknessUm: int,
    enableRaft: bool,
    raftBaseThicknessUm: int,
    raftInterfaceThicknessUm: int,
    raftSurfaceLayers: int,
    raftSurfaceThicknessUm: int,
    raftAirGapUm: int,
    supportAirGapUm: int,
    supportXYDistanceUm: int,
    numberOfBottomLayers: int,
    numberOfTopLayers: int,
    numberOfPerimeters: int,
    firstLayerExtrusionWidthUm: int,
    extrusionWidthUm: int,
    outsideExtrusionWidthUm: int,
    infillExtendIntoPerimeterUm: int,
    expandThinWalls: bool,
    avoidCrossingPerimeters: bool,
    outsidePerimetersFirst: bool,
    mergeOverlappingLines: bool,
    retractWhenChangingIslands: bool)

  /**
   * The geometric queries the sequencing asks of code outside this model
   * (square roots, point-in-polygon tests, line clipping, overlap merging).
   */
  datatype PathOracle = PathOracle(
    /** `new IntPoint(dx, dy).Length()` */
    length: (int, int) -> int,
    /** `from + (to - from).Normal(distance)` */
    stepToward: (IntPoint, IntPoint, int) -> IntPoint,
    /** `polygon.FindClosestPositionIndex(position)` */
    closestPositionIndex: (Polygon, IntPoint) -> int,
    /** `polygons.FindClosestPoint(position)`: (polygon index, point index) */
    closestPoint: (Polygons, IntPoint) -> (int, int),
    /** `pathFinder.OutlineData.Polygons.PointIsInside(position, ...)` */
    pointIsInside: (PathFinder, IntPoint) -> bool,
    /** `polygon.FindGreatestTurnPosition(extrusionWidth, layerIndex, position)` */
    greatestTurn: (Polygon, int, int, IntPoint) -> Option<IntPoint>,
    /** `polygon.MergePerimeterOverlaps(lineWidth, out paths, closed)` */
    mergePerimeterOverlaps: (Polygon, int, bool) -> (bool, Polygons),
    /** `PolygonsHelper.ConvertToLines(polygons, closedLoop)` */
    convertToLines: (Polygons, bool) -> Polygons,
    /** `region.CreateLineIntersections(new Polygons() { line })` */
    lineIntersections: (Region, Polygon) -> Polygons,
    /** `region.CreateLineDifference(new Polygons() { line })` */
    lineDifference: (Region, Polygon) -> Polygons)

  ghost predicate HasPoint(polys: Polygons)
  {
    exists i :: 0 <= i < |polys| && |polys[i]| > 0
  }

  /** FindClosestPoint answers a real point, or (-1, -1) when there is none to answer. */
  ghost predicate ClosestPointAnswer(polys: Polygons, r: (int, int))
  {
    (r == (-1, -1) || (0 <= r.0 < |polys| && 0 <= r.1 < |polys[r.0]|))
    && (HasPoint(polys) ==> 0 <= r.0 < |polys| && 0 <= r.1 < |polys[r.0]|)
  }

  /** What is assumed of the queries: lengths are proper longs and the closest-point searches answer in range. */
  ghost predicate OracleValid(o: PathOracle)
  {
    (forall dx, dy :: 0 <= o.length(dx, dy) < LongMax)
    && (forall poly: Polygon, p: IntPoint ::
          -1 <= o.closestPositionIndex(poly, p) < |poly| && (|poly| > 0 ==> o.closestPositionIndex(poly, p) >= 0))
    && (forall polys: Polygons, p: IntPoint :: ClosestPointAnswer(polys, o.closestPoint(polys, p)))
  }

  // ---------------------------------------------------------------------------
  // Layer heights
  // ---------------------------------------------------------------------------

  /** The Z the planner is set to for a layer. */
  function LayerZ(config: ConfigSettings, layerIndex: int): int
  {
    var z := config.firstLayerThicknessUm + layerIndex * config.layerThicknessUm;
    if config.enableRaft then
      var raised := z + config.raftBaseThicknessUm + config.raftInterfaceThicknessUm
        + config.raftSurfaceLayers * config.raftSurfaceThicknessUm;
      if layerIndex == 0 then raised + config.raftAirGapUm else raised
    else z
  }

  /** The Z of the air-gapped pass that follows a layer when support is being printed. */
  function AirGappedLayerZ(config: ConfigSettings, layerIndex: int): int
  {
    LayerZ(config, layerIndex) + config.supportAirGapUm
  }

  /**
   * Layers are one layer thickness apart, except that the first layer sits a
   * further raft air gap higher when there is a raft.
   */
  lemma LayerZSpacing(config: ConfigSettings, layerIndex: nat)
    ensures layerIndex > 0 ==> LayerZ(config, layerIndex + 1) - LayerZ(config, layerIndex) == config.layerThicknessUm
    ensures layerIndex == 0 ==>
      LayerZ(config, 1) - LayerZ(config, 0) == config.layerThicknessUm - (if config.enableRaft then config.raftAirGapUm else 0)
    ensures LayerZ(config, 0) == config.firstLayerThicknessUm
      + (if config.enableRaft
         then config.raftBaseThicknessUm + config.raftInterfaceThicknessUm
           + config.raftSurfaceLayers * config.raftSurfaceThicknessUm + config.raftAirGapUm
         else 0)
  {
    assert (layerIndex + 1) * config.layerThicknessUm == layerIndex * config.layerThicknessUm + config.layerThicknessUm;
  }

  /** A raft lifts every layer by its base, interface and surface thicknesses, and the first layer by the air gap too. */
  lemma RaftLift(config: ConfigSettings, layerIndex: int)
    ensures LayerZ(config.(enableRaft := true), layerIndex) - LayerZ(config.(enableRaft := false), layerIndex)
      == config.raftBaseThicknessUm + config.raftInterfaceThicknessUm + config.raftSurfaceLayers * config.raftSurfaceThicknessUm
        + (if layerIndex == 0 then config.raftAirGapUm else 0)
  {
  }

  // ---------------------------------------------------------------------------
  // Dropping empty layers from the top
  // ---------------------------------------------------------------------------

  /** The number of layers WriteGCode starts from. */
  function StartLayerCount(config: ConfigSettings, extruders: seq<ExtruderLayers>): int
    requires |extruders| > 0
  {
    if config.outputOnlyFirstLayer then 1 else |extruders[0].layers|
  }

  /** Some extruder has, on this layer, an island whose outline is not empty. */
  predicate LayerHasData(extruders: seq<ExtruderLayers>, layerIndex: nat)
    requires forall e :: 0 <= e < |extruders| ==> layerIndex < |extruders[e].layers|
  {
    exists e, p :: 0 <= e < |extruders| && 0 <= p < |extruders[e].layers[layerIndex].islands|
      && |extruders[e].layers[layerIndex].islands[p].islandOutline| > 0
  }

  /**
   * Counts the layers to print, leaving out the empty layers at the top: the last
   * layer kept has data, and every layer dropped has none.
   */
  method TrimEmptyTopLayers(config: ConfigSettings, extruders: seq<ExtruderLayers>) returns (totalLayers: int)
    requires |extruders| > 0
    requires forall e :: 0 <= e < |extruders| ==> |extruders[e].layers| >= StartLayerCount(config, extruders)
    ensures 0 <= totalLayers <= StartLayerCount(config, extruders)
    ensures totalLayers == 0 || LayerHasData(extruders, totalLayers - 1)
    ensures forall l :: totalLayers <= l < StartLayerCount(config, extruders) ==> !LayerHasData(extruders, l)
  {
    totalLayers := |extruders[0].layers|;
    if config.outputOnlyFirstLayer {
      totalLayers := 1;
    }
    ghost var start := totalLayers;
    var layerIndex := totalLayers - 1;
    while layerIndex >= 0
      invariant -1 <= layerIndex < start && totalLayers == layerIndex + 1
      invariant forall l :: totalLayers <= l < start ==> !LayerHasData(extruders, l)
    {
      var layerHasData := false;
      for e := 0 to |extruders|
        invariant layerHasData ==> LayerHasData(extruders, layerIndex)
        invariant !layerHasData ==> forall e', p :: 0 <= e' < e && 0 <= p < |extruders[e'].layers[layerIndex].islands| ==>
          |extruders[e'].layers[layerIndex].islands[p].islandOutline| == 0
      {
        var currentLayer := extruders[e].layers[layerIndex];
        var partIndex := 0;
        while partIndex < |currentLayer.islands|
          invariant 0 <= partIndex <= |currentLayer.islands|
          invariant layerHasData ==> LayerHasData(extruders, layerIndex)
          invariant !layerHasData ==> forall p :: 0 <= p < partIndex ==> |currentLayer.islands[p].islandOutline| == 0
        {
          var currentIsland := currentLayer.islands[partIndex];
          if |currentIsland.islandOutline| > 0 {
            layerHasData := true;
            break;
          }
          partIndex := partIndex + 1;
        }
      }
      if layerHasData {
        break;
      }
      totalLayers := totalLayers - 1;
      layerIndex := layerIndex - 1;
    }
  }

  // ---------------------------------------------------------------------------
  // Which layers get insets
  // ---------------------------------------------------------------------------

  /** The first and last layer CreateRequiredInsets builds insets for, around output layer `outputLayerIndex`. */
  function InsetWindow(config: ConfigSettings, outputLayerIndex: int, layerCount: int): (w: (int, int))
    ensures forall i :: InWindow(w, i) <==>
      0 <= i < layerCount
      && outputLayerIndex - config.numberOfBottomLayers - 1 <= i <= outputLayerIndex + config.numberOfTopLayers + 1
  {
    var startIndex := if 0 < outputLayerIndex - config.numberOfBottomLayers - 1
      then outputLayerIndex - config.numberOfBottomLayers - 1 else 0;
    var endIndex := if layerCount - 1 < outputLayerIndex + config.numberOfTopLayers + 1
      then layerCount - 1 else outputLayerIndex + config.numberOfTopLayers + 1;
    (startIndex, endIndex)
  }

  predicate InWindow(w: (int, int), i: int)
  {
    w.0 <= i <= w.1
  }

  /**
   * How many perimeters a layer gets: one more on odd bottom layers when
   * spiralizing, to seal the bottom. C#'s remainder `layerIndex % 2` is 1 only
   * for positive odd indices (it is -1 for negative odd ones), hence the sign test.
   */
  function InsetCount(config: ConfigSettings, layerIndex: int): (n: int)
    ensures n - config.numberOfPerimeters == 0 || n - config.numberOfPerimeters == 1
    ensures n == config.numberOfPerimeters + 1 <==>
      config.continuousSpiralOuterPerimeter && 0 <= layerIndex < config.numberOfBottomLayers && layerIndex % 2 == 1
  {
    if config.continuousSpiralOuterPerimeter && layerIndex < config.numberOfBottomLayers && layerIndex >= 0 && layerIndex % 2 == 1
    then config.numberOfPerimeters + 1
    else config.numberOfPerimeters
  }

  /** The GenerateInsets call for a layer: first-layer widths on layer 0. */
  function InsetRequestFor(config: ConfigSettings, layerIndex: int): InsetRequest
  {
    var thin := config.expandThinWalls && !config.continuousSpiralOuterPerimeter;
    if layerIndex == 0
    then InsetRequest(config.firstLayerExtrusionWidthUm, config.firstLayerExtrusionWidthUm,
      InsetCount(config, layerIndex), thin, config.avoidCrossingPerimeters)
    else InsetRequest(config.extrusionWidthUm, config.outsideExtrusionWidthUm,
      InsetCount(config, layerIndex), thin, config.avoidCrossingPerimeters)
  }

  /** The GenerateTopAndBottoms call for an output layer. */
  function TopBottomRequestFor(config: ConfigSettings, outputLayerIndex: int): TopBottomRequest
  {
    if outputLayerIndex == 0
    then TopBottomRequest(outputLayerIndex, config.firstLayerExtrusionWidthUm, config.firstLayerExtrusionWidthUm,
      config.numberOfBottomLayers, config.numberOfTopLayers, config.infillExtendIntoPerimeterUm)
    else TopBottomRequest(outputLayerIndex, config.extrusionWidthUm, config.outsideExtrusionWidthUm,
      config.numberOfBottomLayers, config.numberOfTopLayers, config.infillExtendIntoPerimeterUm)
  }

  // ---------------------------------------------------------------------------
  // First strictly smallest candidate
  // ---------------------------------------------------------------------------

  /**
   * A running minimum over the first `n` candidates, as both searches in this
   * file keep it: (index, distance) of the first candidate strictly below
   * everything before it and below `bound`, or (-1, bound).
   */
  function ScanMinimum(ds: seq<Option<int>>, bound: int, n: nat): (r: (int, int))
    requires n <= |ds|
    ensures r.0 == -1 ==> r.1 == bound && forall j :: 0 <= j < n && ds[j].Some? ==> ds[j].value >= bound
    ensures r.0 != -1 ==>
      && 0 <= r.0 < n && ds[r.0] == Some(r.1) && r.1 < bound
      && (forall j :: 0 <= j < r.0 && ds[j].Some? ==> ds[j].value > r.1)
      && (forall j :: r.0 < j < n && ds[j].Some? ==> ds[j].value >= r.1)
  {
    if n == 0 then (-1, bound)
    else
      var previous := ScanMinimum(ds, bound, n - 1);
      if ds[n - 1].Some? && ds[n - 1].value < previous.1 then (n - 1, ds[n - 1].value) else previous
  }

  function FirstMinimum(ds: seq<Option<int>>, bound: int): int
  {
    ScanMinimum(ds, bound, |ds|).0
  }

  /** The insets' distances from `position`, via each polygon's closest vertex; None for a polygon with none. */
  function InsetDistances(o: PathOracle, polys: Polygons, position: IntPoint): (ds: seq<Option<int>>)
    ensures |ds| == |polys|
  {
    seq(|polys|, i requires 0 <= i < |polys| =>
      var bestPoint := o.closestPositionIndex(polys[i], position);
      if -1 < bestPoint < |polys[i]|
      then Some(o.length(polys[i][bestPoint].X - position.X, polys[i][bestPoint].Y - position.Y))
      else None)
  }

  /** QueueClosetsInset's acceptance distance: four extrusion widths when limited, otherwise any. */
  function MaxDistance(config: ConfigSettings, limitDistance: bool): int
  {
    if limitDistance then config.extrusionWidthUm * 4 else LongMax
  }

  /** The inset QueueClosetsInset picks, or -1. */
  function ClosestInset(o: PathOracle, config: ConfigSettings, polys: Polygons, position: IntPoint, limitDistance: bool): int
  {
    FirstMinimum(InsetDistances(o, polys, position), MaxDistance(config, limitDistance))
  }

  /**
   * QueueClosetsInset picks the first inset whose closest vertex is strictly the
   * nearest among those within range, and picks nothing exactly when no inset is
   * within range. Unlimited, it always finds one in a non-empty list of
   * non-empty polygons.
   */
  lemma ClosestInsetIsFirstNearest(o: PathOracle, config: ConfigSettings, polys: Polygons, position: IntPoint, limitDistance: bool)
    ensures var k := ClosestInset(o, config, polys, position, limitDistance);
      var ds := InsetDistances(o, polys, position);
      var bound := MaxDistance(config, limitDistance);
      (k == -1 <==> forall j :: 0 <= j < |ds| && ds[j].Some? ==> ds[j].value >= bound)
      && (k != -1 ==>
        && 0 <= k < |polys| && ds[k].Some? && ds[k].value < bound
        && (forall j :: 0 <= j < k && ds[j].Some? ==> ds[j].value > ds[k].value)
        && (forall j :: k < j < |ds| && ds[j].Some? ==> ds[j].value >= ds[k].value))
    ensures OracleValid(o) && !limitDistance && |polys| > 0 && |polys[0]| > 0 ==>
      ClosestInset(o, config, polys, position, limitDistance) != -1
  {
    var ds := InsetDistances(o, polys, position);
    if OracleValid(o) && !limitDistance && |polys| > 0 && |polys[0]| > 0 {
      assert ds[0].Some? && ds[0].value < LongMax;
    }
  }

  /** Where a polygon's tightest turn near `position` is, if it has one. */
  function TurnCandidates(o: PathOracle, config: ConfigSettings, polys: Polygons, position: IntPoint, layerIndex: int): (cs: seq<Option<IntPoint>>)
    ensures |cs| == |polys|
  {
    seq(|polys|, i requires 0 <= i < |polys| => o.greatestTurn(polys[i], config.extrusionWidthUm, layerIndex, position))
  }

  function CandidateDistances(o: PathOracle, cs: seq<Option<IntPoint>>, position: IntPoint): (ds: seq<Option<int>>)
    ensures |ds| == |cs|
    ensures forall i :: 0 <= i < |cs| ==> (ds[i].Some? <==> cs[i].Some?)
  {
    seq(|cs|, i requires 0 <= i < |cs| =>
      match cs[i]
      case None => None
      case Some(c) => Some(o.length(c.X - position.X, c.Y - position.Y)))
  }

  // ---------------------------------------------------------------------------
  // Counting insets
  // ---------------------------------------------------------------------------

  function TotalCount(lists: seq<Polygons>): nat
  {
    if lists == [] then 0 else TotalCount(lists[..|lists| - 1]) + |lists[|lists| - 1]|
  }

  /** Nothing is left to print exactly when every list is empty. */
  lemma {:induction false} TotalCountZero(lists: seq<Polygons>)
    ensures TotalCount(lists) == 0 <==> forall i :: 0 <= i < |lists| ==> lists[i] == []
  {
    if lists != [] {
      var init := lists[..|lists| - 1];
      TotalCountZero(init);
      assert forall i :: 0 <= i < |init| ==> init[i] == lists[i];
    }
  }

  /** Replacing one list changes the total by the difference in that list's length. */
  lemma {:induction false} TotalCountUpdate(lists: seq<Polygons>, k: nat, replacement: Polygons)
    requires k < |lists|
    ensures TotalCount(lists[k := replacement]) == TotalCount(lists) - |lists[k]| + |replacement|
  {
    var updated := lists[k := replacement];
    if k < |lists| - 1 {
      assert updated[..|updated| - 1] == lists[..|lists| - 1][k := replacement];
      TotalCountUpdate(lists[..|lists| - 1], k, replacement);
    } else {
      assert updated[..|updated| - 1] == lists[..|lists| - 1];
    }
  }

  method CountInsetsToPrint(insetsToPrint: List<Polygons>) returns (total: int)
    ensures total == TotalCount(insetsToPrint.items)
  {
    total := 0;
    for i := 0 to |insetsToPrint.items|
      invariant total == TotalCount(insetsToPrint.items[..i])
    {
      assert insetsToPrint.items[..i + 1][..i] == insetsToPrint.items[..i];
      total := total + |insetsToPrint.items[i]|;
    }
    assert insetsToPrint.items[..|insetsToPrint.items|] == insetsToPrint.items;
  }

  /** The perimeter lists for one island: its tool paths in order, empty polygons dropped. */
  function NonEmptyPolygons(polys: Polygons): (r: Polygons)
    ensures forall i :: 0 <= i < |r| ==> |r[i]| > 0
  {
    if polys == [] then []
    else NonEmptyPolygons(polys[..|polys| - 1]) + (if |polys[|polys| - 1]| > 0 then [polys[|polys| - 1]] else [])
  }

  /** Dropping empty polygons keeps every other polygon and nothing else. */
  lemma {:induction false} NonEmptyPolygonsKeepsTheRest(polys: Polygons)
    ensures forall p :: p in NonEmptyPolygons(polys) <==> p in polys && |p| > 0
  {
    if polys != [] {
      NonEmptyPolygonsKeepsTheRest(polys[..|polys| - 1]);
      assert polys == polys[..|polys| - 1] + [polys[|polys| - 1]];
    }
  }

  /** The lists hold only non-empty polygons. */
  predicate NonEmptyInsets(insets: seq<Polygons>)
  {
    forall i, k :: 0 <= i < |insets| && 0 <= k < |insets[i]| ==> |insets[i][k]| > 0
  }

  lemma RemovedAtIsPart(s: Polygons, index: nat)
    requires index < |s|
    ensures forall p :: p in RemovedAt(s, index) ==> p in s
  {
    forall p | p in RemovedAt(s, index)
      ensures p in s
    {
      var j :| 0 <= j < |RemovedAt(s, index)| && RemovedAt(s, index)[j] == p;
      if j >= index {
        assert s[j + 1] == p;
      }
    }
  }

  /** One step of a pass either leaves the lists alone or prints one inset out of the list at `index`. */
  lemma PassStepLists(before: seq<Polygons>, index: nat, k: int, after: seq<Polygons>)
    requires index < |before| && NonEmptyInsets(before)
    requires k == -1 ==> after == before
    requires k != -1 ==> 0 <= k < |before[index]| && after == before[index := RemovedAt(before[index], k)]
    ensures |after| == |before| && NonEmptyInsets(after)
    ensures k == -1 ==> TotalCount(after) == TotalCount(before)
    ensures k != -1 ==> TotalCount(after) == TotalCount(before) - 1
    ensures forall j :: 0 <= j < |after| && j != index ==> after[j] == before[j]
  {
    if k != -1 {
      RemovedAtIsPart(before[index], k);
      ReplacedByPart(before, index, RemovedAt(before[index], k));
    }
  }

  /** Replacing one list by part of it keeps every polygon non-empty and lowers the total by what was dropped. */
  lemma ReplacedByPart(lists: seq<Polygons>, index: nat, replacement: Polygons)
    requires index < |lists| && NonEmptyInsets(lists)
    requires forall p :: p in replacement ==> p in lists[index]
    ensures NonEmptyInsets(lists[index := replacement])
    ensures TotalCount(lists[index := replacement]) == TotalCount(lists) - |lists[index]| + |replacement|
  {
    TotalCountUpdate(lists, index, replacement);
    var updated := lists[index := replacement];
    forall i, k | 0 <= i < |updated| && 0 <= k < |updated[i]|
      ensures |updated[i][k]| > 0
    {
      if i == index {
        assert replacement[k] in lists[index];
      }
    }
  }

  /** One list per inset depth, outermost first, of the island's non-empty tool paths. */
  method BuildInsetLists(island: LayerIsland) returns (insetsForThisIsland: List<Polygons>)
    ensures fresh(insetsForThisIsland)
    ensures insetsForThisIsland.items == seq(|island.insetToolPaths|, i requires 0 <= i < |island.insetToolPaths| =>
      NonEmptyPolygons(island.insetToolPaths[i]))
    ensures NonEmptyInsets(insetsForThisIsland.items)
  {
    insetsForThisIsland := new List<Polygons>([]);
    for i := 0 to |island.insetToolPaths|
      invariant |insetsForThisIsland.items| == i
      invariant forall j :: 0 <= j < i ==> insetsForThisIsland.items[j] == NonEmptyPolygons(island.insetToolPaths[j])
      invariant NonEmptyInsets(insetsForThisIsland.items)
    {
      var toolPath := island.insetToolPaths[i];
      var polygons: Polygons := [];
      for k := 0 to |toolPath|
        invariant polygons == NonEmptyPolygons(toolPath[..k])
      {
        assert toolPath[..k + 1][..k] == toolPath[..k];
        if |toolPath[k]| > 0 {
          polygons := polygons + [toolPath[k]];
        }
      }
      assert toolPath[..|toolPath|] == toolPath;
      insetsForThisIsland.Add(polygons);
    }
  }

  // ---------------------------------------------------------------------------
  // Splitting lines around support
  // ---------------------------------------------------------------------------

  datatype SupportWriteType = UnsupportedAreas | SupportedAreas | SupportedAreasCheckOnly

  /** What one line contributes at normal height. */
  function NormalPiece(o: PathOracle, support: Region, maxSupport: Region, line: Polygon, forAirGap: bool): Polygons
  {
    if |o.lineIntersections(support, line)| == 0 then (if !forAirGap then [line] else [])
    else if forAirGap then []
    else o.lineDifference(maxSupport, line)
  }

  /** What one line contributes at air-gap height. */
  function AirGapPiece(o: PathOracle, support: Region, maxSupport: Region, line: Polygon, forAirGap: bool): Polygons
  {
    if |o.lineIntersections(support, line)| == 0 then []
    else if forAirGap then o.lineIntersections(maxSupport, line)
    else []
  }

  function NormalPart(o: PathOracle, support: Region, maxSupport: Region, lines: Polygons, forAirGap: bool): Polygons
  {
    if lines == [] then []
    else
      NormalPart(o, support, maxSupport, lines[..|lines| - 1], forAirGap)
      + NormalPiece(o, support, maxSupport, lines[|lines| - 1], forAirGap)
  }

  function AirGapPart(o: PathOracle, support: Region, maxSupport: Region, lines: Polygons, forAirGap: bool): Polygons
  {
    if lines == [] then []
    else
      AirGapPart(o, support, maxSupport, lines[..|lines| - 1], forAirGap)
      + AirGapPiece(o, support, maxSupport, lines[|lines| - 1], forAirGap)
  }

  /** Splitting for the air gap never adds to the normal-height list, and splitting for normal height never adds to the air-gap list. */
  lemma {:induction false} SplitSidesExclusive(o: PathOracle, support: Region, maxSupport: Region, lines: Polygons, forAirGap: bool)
    ensures forAirGap ==> NormalPart(o, support, maxSupport, lines, forAirGap) == []
    ensures !forAirGap ==> AirGapPart(o, support, maxSupport, lines, forAirGap) == []
  {
    if lines != [] {
      SplitSidesExclusive(o, support, maxSupport, lines[..|lines| - 1], forAirGap);
    }
  }

  /** At normal height, every line that misses the support is kept whole, and so is nothing that does not come from some line. */
  lemma {:induction false} LinesMissingSupportKept(o: PathOracle, support: Region, maxSupport: Region, lines: Polygons)
    ensures forall k :: 0 <= k < |lines| && |o.lineIntersections(support, lines[k])| == 0 ==>
      lines[k] in NormalPart(o, support, maxSupport, lines, false)
    ensures forall q :: q in NormalPart(o, support, maxSupport, lines, false) ==>
      exists k :: 0 <= k < |lines| && (q == lines[k] || q in o.lineDifference(maxSupport, lines[k]))
  {
    if lines != [] {
      var init := lines[..|lines| - 1];
      LinesMissingSupportKept(o, support, maxSupport, init);
      assert forall k :: 0 <= k < |init| ==> init[k] == lines[k];
      var last := lines[|lines| - 1];
      forall q | q in NormalPart(o, support, maxSupport, lines, false)
        ensures exists k :: 0 <= k < |lines| && (q == lines[k] || q in o.lineDifference(maxSupport, lines[k]))
      {
        if q in NormalPart(o, support, maxSupport, init, false) {
          var k :| 0 <= k < |init| && (q == init[k] || q in o.lineDifference(maxSupport, init[k]));
          assert lines[k] == init[k];
        } else {
          assert q in NormalPiece(o, support, maxSupport, last, false);
          assert q == lines[|lines| - 1] || q in o.lineDifference(maxSupport, lines[|lines| - 1]);
        }
      }
    }
  }

  /** How the planner is asked to print `polys` with a given config: nothing when there is nothing. */
  function PrintIfAny(polys: Polygons, configName: string, closedLoop: bool): seq<Action>
  {
    if |polys| > 0 then [Print(polys, configName, closedLoop)] else []
  }

  // ---------------------------------------------------------------------------
  // The processor
  // ---------------------------------------------------------------------------

  class FffProcessor {
    const config: ConfigSettings
    const oracle: PathOracle
    const clipper: Clipper
    /** The infill path config; GetSegmentsConsideringSupport reads its line width. */
    const fillConfig: GCodePathConfig
    /** `slicingData.support`: made only when support is on and the print is not spiralized. */
    const support: NS.NewSupport?
    var islandCurrentlyInside: Option<LayerIsland>

    ghost predicate Valid()
    {
      OracleValid(oracle)
      && (config.generateSupport && !config.continuousSpiralOuterPerimeter ==> support != null)
    }

    constructor (config: ConfigSettings, oracle: PathOracle, clipper: Clipper, fillConfig: GCodePathConfig, support: NS.NewSupport?)
      ensures this.config == config && this.oracle == oracle && this.clipper == clipper
      ensures this.fillConfig == fillConfig && this.support == support && islandCurrentlyInside == None
    {
      this.config := config;
      this.oracle := oracle;
      this.clipper := clipper;
      this.fillConfig := fillConfig;
      this.support := support;
      islandCurrentlyInside := None;
    }

    /** The support test is made on this layer: support is on, the layer is not the first, and the print is not spiralized. */
    predicate SupportActive(layerIndex: int)
    {
      config.generateSupport && layerIndex > 0 && !config.continuousSpiralOuterPerimeter
    }

    /** The area lines on this layer must keep off, grown by half the line width. */
    function SupportOutlines(layerIndex: int, lineWidthUm: int): Region
      requires Valid() && SupportActive(layerIndex)
    {
      clipper.offset(support.GetRequiredSupportAreas(layerIndex), TruncDiv(lineWidthUm, 2))
    }

    /** The support region grown by two line widths of the infill config and the XY distance. */
    function MaxSupportOutlines(supportOutlines: Region): Region
    {
      clipper.offset(supportOutlines, fillConfig.lineWidthUm * 2 + config.supportXYDistanceUm)
    }

    function Lines(polygonsToWrite: Polygons, closedLoop: bool): Polygons
    {
      oracle.convertToLines(polygonsToWrite, closedLoop)
    }

    /** What QueuePolygonsConsideringSupport queues for UnsupportedAreas. */
    function UnsupportedQueueing(layerIndex: int, polys: Polygons, pathConfig: GCodePathConfig, closedLoop: bool): seq<Action>
      requires Valid()
    {
      if SupportActive(layerIndex) && SupportOutlines(layerIndex, pathConfig.lineWidthUm) != {} then
        var supportOutlines := SupportOutlines(layerIndex, pathConfig.lineWidthUm);
        PrintIfAny(NormalPart(oracle, supportOutlines, MaxSupportOutlines(supportOutlines), Lines(polys, closedLoop), false),
          pathConfig.name, false)
      else PrintIfAny(polys, pathConfig.name, closedLoop)
    }

    /** The paths QueuePerimeterWithMergOverlaps hands on, and the closed-loop flag it hands them on with. */
    function MergedPerimeter(perimeter: Polygon, pathConfig: GCodePathConfig, closedLoop: bool): (Polygons, bool)
    {
      var merged := oracle.mergePerimeterOverlaps(perimeter, pathConfig.lineWidthUm, true);
      if |perimeter| > 2 && merged.0 && |merged.1| > 0 then (merged.1, false) else ([perimeter], closedLoop)
    }

    /** What queueing one chosen inset polygon adds to the planner. */
    function InsetQueueing(layerIndex: int, polygon: Polygon, pathConfig: GCodePathConfig, closedLoop: bool): seq<Action>
      requires Valid()
    {
      if config.mergeOverlappingLines then
        var m := MergedPerimeter(polygon, pathConfig, closedLoop);
        UnsupportedQueueing(layerIndex, m.0, pathConfig, m.1)
      else UnsupportedQueueing(layerIndex, [polygon], pathConfig, closedLoop)
    }

    /**
     * Splits the lines of `polygonsToWrite` against the support. Lines that miss
     * it go at normal height (unless splitting for the air gap); lines that cross
     * it are clipped against the grown support: the inside goes at air-gap
     * height when splitting for the air gap, the outside at normal height otherwise.
     */
    method GetSegmentsConsideringSupport(polygonsToWrite: Polygons, supportOutlines: Region,
                                         polysToWriteAtNormalHeight: List<Polygon>, polysToWriteAtAirGapHeight: List<Polygon>,
                                         forAirGap: bool, closedLoop: bool)
      requires polysToWriteAtNormalHeight != polysToWriteAtAirGapHeight
      modifies polysToWriteAtNormalHeight, polysToWriteAtAirGapHeight
      ensures polysToWriteAtNormalHeight.items == old(polysToWriteAtNormalHeight.items)
        + NormalPart(oracle, supportOutlines, MaxSupportOutlines(supportOutlines), Lines(polygonsToWrite, closedLoop), forAirGap)
      ensures polysToWriteAtAirGapHeight.items == old(polysToWriteAtAirGapHeight.items)
        + AirGapPart(oracle, supportOutlines, MaxSupportOutlines(supportOutlines), Lines(polygonsToWrite, closedLoop), forAirGap)
    {
      var maxSupportOutlines := MaxSupportOutlines(supportOutlines);
      var polygonsToWriteAsLines := oracle.convertToLines(polygonsToWrite, closedLoop);
      ghost var normal0, airGap0 := polysToWriteAtNormalHeight.items, polysToWriteAtAirGapHeight.items;
      for i := 0 to |polygonsToWriteAsLines|
        invariant polysToWriteAtNormalHeight.items
          == normal0 + NormalPart(oracle, supportOutlines, maxSupportOutlines, polygonsToWriteAsLines[..i], forAirGap)
        invariant polysToWriteAtAirGapHeight.items
          == airGap0 + AirGapPart(oracle, supportOutlines, maxSupportOutlines, polygonsToWriteAsLines[..i], forAirGap)
      {
        var poly := polygonsToWriteAsLines[i];
        assert polygonsToWriteAsLines[..i + 1][..i] == polygonsToWriteAsLines[..i];
        var polygonsIntersectSupport := oracle.lineIntersections(supportOutlines, poly);
        if |polygonsIntersectSupport| == 0 {
          if !forAirGap {
            polysToWriteAtNormalHeight.Add(poly);
          }
        } else {
          if forAirGap {
            polysToWriteAtAirGapHeight.AddRange(oracle.lineIntersections(maxSupportOutlines, poly));
          } else {
            polysToWriteAtNormalHeight.AddRange(oracle.lineDifference(maxSupportOutlines, poly));
          }
        }
      }
      assert polygonsToWriteAsLines[..|polygonsToWriteAsLines|] == polygonsToWriteAsLines;
    }

    /**
     * Queues `polygonsToWrite`, keeping lines that need an air gap apart from the
     * rest, and answers whether anything was (or, for a check, would be) output.
     * The config's closed-loop flag is restored.
     */
    method QueuePolygonsConsideringSupport(layerIndex: int, gcodeLayer: GCodePlanner, polygonsToWrite: Polygons,
                                           pathConfig: GCodePathConfig, supportWriteType: SupportWriteType)
      returns (polygonsWereOutput: bool)
      requires Valid()
      modifies gcodeLayer, pathConfig
      ensures pathConfig.closedLoop == old(pathConfig.closedLoop) && pathConfig.spiralize == old(pathConfig.spiralize)
      ensures gcodeLayer.pathFinder == old(gcodeLayer.pathFinder)
      ensures supportWriteType == UnsupportedAreas ==>
        gcodeLayer.queue == old(gcodeLayer.queue) + UnsupportedQueueing(layerIndex, polygonsToWrite, pathConfig, old(pathConfig.closedLoop))
        && polygonsWereOutput == (|gcodeLayer.queue| > |old(gcodeLayer.queue)|)
      ensures supportWriteType == SupportedAreasCheckOnly ==>
        gcodeLayer.queue == old(gcodeLayer.queue) && gcodeLayer.lastPosition == old(gcodeLayer.lastPosition)
      ensures (supportWriteType != UnsupportedAreas
        && (!SupportActive(layerIndex) || SupportOutlines(layerIndex, pathConfig.lineWidthUm) == {})) ==>
        !polygonsWereOutput && gcodeLayer.queue == old(gcodeLayer.queue)
      ensures (supportWriteType != UnsupportedAreas
        && SupportActive(layerIndex) && SupportOutlines(layerIndex, pathConfig.lineWidthUm) != {}) ==>
        var supportOutlines := SupportOutlines(layerIndex, pathConfig.lineWidthUm);
        var airGapped := AirGapPart(oracle, supportOutlines, MaxSupportOutlines(supportOutlines),
          Lines(polygonsToWrite, old(pathConfig.closedLoop)), true);
        polygonsWereOutput == (|airGapped| > 0)
        && (supportWriteType == SupportedAreas ==>
          gcodeLayer.queue == old(gcodeLayer.queue) + PrintIfAny(airGapped, pathConfig.name, false))
    {
      polygonsWereOutput := false;
      var oldLoopValue := pathConfig.closedLoop;

      if config.generateSupport && layerIndex > 0 && !config.continuousSpiralOuterPerimeter {
        var supportOutlines := clipper.offset(support.GetRequiredSupportAreas(layerIndex), TruncDiv(pathConfig.lineWidthUm, 2));
        if supportWriteType == UnsupportedAreas {
          if supportOutlines != {} {
            var polysToWriteAtNormalHeight := new List<Polygon>([]);
            var polysToWriteAtAirGapHeight := new List<Polygon>([]);
            GetSegmentsConsideringSupport(polygonsToWrite, supportOutlines, polysToWriteAtNormalHeight,
              polysToWriteAtAirGapHeight, false, pathConfig.closedLoop);
            assert polysToWriteAtNormalHeight.items
              == NormalPart(oracle, supportOutlines, MaxSupportOutlines(supportOutlines), Lines(polygonsToWrite, oldLoopValue), false);
            pathConfig.closedLoop := false;
            polygonsWereOutput := gcodeLayer.QueuePolygonsByOptimizer(polysToWriteAtNormalHeight.items, pathConfig);
          } else {
            polygonsWereOutput := gcodeLayer.QueuePolygonsByOptimizer(polygonsToWrite, pathConfig);
          }
        } else if supportOutlines != {} {
          var polysToWriteAtNormalHeight := new List<Polygon>([]);
          var polysToWriteAtAirGapHeight := new List<Polygon>([]);
          GetSegmentsConsideringSupport(polygonsToWrite, supportOutlines, polysToWriteAtNormalHeight,
            polysToWriteAtAirGapHeight, true, pathConfig.closedLoop);
          assert polysToWriteAtAirGapHeight.items
            == AirGapPart(oracle, supportOutlines, MaxSupportOutlines(supportOutlines), Lines(polygonsToWrite, oldLoopValue), true);
          pathConfig.closedLoop := false;
          if supportWriteType == SupportedAreasCheckOnly {
            polygonsWereOutput := |polysToWriteAtAirGapHeight.items| > 0;
          } else {
            polygonsWereOutput := gcodeLayer.QueuePolygonsByOptimizer(polysToWriteAtAirGapHeight.items, pathConfig);
          }
        }
      } else if supportWriteType == UnsupportedAreas {
        polygonsWereOutput := gcodeLayer.QueuePolygonsByOptimizer(polygonsToWrite, pathConfig);
      }

      pathConfig.closedLoop := oldLoopValue;
    }

    /** Queues a perimeter, replaced by its merged paths when merging its overlaps leaves any. */
    method QueuePerimeterWithMergOverlaps(perimeterToCheckForMerge: Polygon, layerIndex: int, gcodeLayer: GCodePlanner,
                                          pathConfig: GCodePathConfig)
      requires Valid()
      modifies gcodeLayer, pathConfig
      ensures pathConfig.closedLoop == old(pathConfig.closedLoop) && pathConfig.spiralize == old(pathConfig.spiralize)
      ensures gcodeLayer.pathFinder == old(gcodeLayer.pathFinder)
      ensures var m := MergedPerimeter(perimeterToCheckForMerge, pathConfig, old(pathConfig.closedLoop));
        gcodeLayer.queue == old(gcodeLayer.queue) + UnsupportedQueueing(layerIndex, m.0, pathConfig, m.1)
    {
      var pathsWithOverlapsRemoved: Polygons := [];
      var pathHadOverlaps := false;
      var pathIsClosed := true;

      if |perimeterToCheckForMerge| > 2 {
        var merged := oracle.mergePerimeterOverlaps(perimeterToCheckForMerge, pathConfig.lineWidthUm, pathIsClosed);
        pathsWithOverlapsRemoved := merged.1;
        pathHadOverlaps := merged.0 && |pathsWithOverlapsRemoved| > 0;
      }

      if pathHadOverlaps {
        var oldClosedLoop := pathConfig.closedLoop;
        pathConfig.closedLoop := false;
        var _ := QueuePolygonsConsideringSupport(layerIndex, gcodeLayer, pathsWithOverlapsRemoved, pathConfig, UnsupportedAreas);
        pathConfig.closedLoop := oldClosedLoop;
      } else {
        var _ := QueuePolygonsConsideringSupport(layerIndex, gcodeLayer, [perimeterToCheckForMerge], pathConfig, UnsupportedAreas);
      }
    }

    /** The selection loop of QueueClosetsInset. */
    method FindClosestInset(insetsToConsider: Polygons, position: IntPoint, limitDistance: bool) returns (polygonPrintedIndex: int)
      ensures polygonPrintedIndex == ClosestInset(oracle, config, insetsToConsider, position, limitDistance)
    {
      var ds := InsetDistances(oracle, insetsToConsider, position);
      var maxDistUm := LongMax;
      if limitDistance {
        maxDistUm := config.extrusionWidthUm * 4;
      }
      polygonPrintedIndex := -1;
      for polygonIndex := 0 to |insetsToConsider|
        invariant (polygonPrintedIndex, maxDistUm) == ScanMinimum(ds, MaxDistance(config, limitDistance), polygonIndex)
      {
        var currentPolygon := insetsToConsider[polygonIndex];
        var bestPoint := oracle.closestPositionIndex(currentPolygon, position);
        if -1 < bestPoint < |currentPolygon| {
          var distance := oracle.length(currentPolygon[bestPoint].X - position.X, currentPolygon[bestPoint].Y - position.Y);
          if distance < maxDistUm {
            maxDistUm := distance;
            polygonPrintedIndex := polygonIndex;
          }
        }
      }
    }

    /**
     * Prints the inset of depth `insetIndex` nearest the head (within four
     * extrusion widths when limited) and removes it from its list, answering
     * true; with nothing in range the lists and the planner are untouched and
     * `limitDistance` comes back.
     */
    method QueueClosetsInset(insetsForThisIsland: List<Polygons>, insetIndex: nat, limitDistance: bool,
                             pathConfig: GCodePathConfig, layerIndex: int, gcodeLayer: GCodePlanner) returns (r: bool)
      requires Valid() && insetIndex < |insetsForThisIsland.items|
      modifies insetsForThisIsland, gcodeLayer, pathConfig
      ensures pathConfig.closedLoop == old(pathConfig.closedLoop) && pathConfig.spiralize == old(pathConfig.spiralize)
      ensures gcodeLayer.pathFinder == old(gcodeLayer.pathFinder)
      ensures var insetsToConsider := old(insetsForThisIsland.items[insetIndex]);
        var k := ClosestInset(oracle, config, insetsToConsider, old(gcodeLayer.lastPosition), limitDistance);
        (k != -1 ==>
          && 0 <= k < |insetsToConsider| && r
          && insetsForThisIsland.items == old(insetsForThisIsland.items)[insetIndex := RemovedAt(insetsToConsider, k)]
          && gcodeLayer.queue == old(gcodeLayer.queue)
            + InsetQueueing(layerIndex, insetsToConsider[k], pathConfig, old(pathConfig.closedLoop)))
        && (k == -1 ==>
          && r == limitDistance && insetsForThisIsland.items == old(insetsForThisIsland.items)
          && gcodeLayer.queue == old(gcodeLayer.queue) && gcodeLayer.lastPosition == old(gcodeLayer.lastPosition))
    {
      var insetsToConsider := insetsForThisIsland.items[insetIndex];
      ClosestInsetIsFirstNearest(oracle, config, insetsToConsider, gcodeLayer.lastPosition, limitDistance);
      var polygonPrintedIndex := FindClosestInset(insetsToConsider, gcodeLayer.lastPosition, limitDistance);
      if polygonPrintedIndex > -1 {
        var polygon := insetsToConsider[polygonPrintedIndex];
        if config.mergeOverlappingLines {
          QueuePerimeterWithMergOverlaps(polygon, layerIndex, gcodeLayer, pathConfig);
        } else {
          var _ := QueuePolygonsConsideringSupport(layerIndex, gcodeLayer, [polygon], pathConfig, UnsupportedAreas);
        }
        insetsForThisIsland.items := insetsForThisIsland.items[insetIndex := RemovedAt(insetsToConsider, polygonPrintedIndex)];
        return true;
      }
      return limitDistance;
    }

    /**
     * One QueueClosetsInset call inside a perimeter pass, with the override
     * config if there is one, else the outer config for depth 0 and the inner
     * one below it. If it prints nothing while the distance limit is off, the
     * list it was given is empty and the limit stays off.
     */
    method PassStep(insets: List<Polygons>, index: nat, limitDistance: bool,
                    inset0Config: GCodePathConfig, insetXConfig: GCodePathConfig, overrideConfig: GCodePathConfig?,
                    layerIndex: int, gcodeLayer: GCodePlanner)
      returns (limit: bool)
      requires Valid() && index < |insets.items| && NonEmptyInsets(insets.items)
      modifies insets, gcodeLayer, inset0Config, insetXConfig, overrideConfig
      ensures |insets.items| == |old(insets.items)| && NonEmptyInsets(insets.items)
      ensures TotalCount(insets.items) <= old(TotalCount(insets.items))
      ensures !limitDistance && TotalCount(insets.items) == old(TotalCount(insets.items)) ==>
        insets.items[index] == [] && !limit
      ensures forall j :: 0 <= j < |insets.items| && j != index ==> insets.items[j] == old(insets.items[j])
      ensures var pathConfig := if overrideConfig != null then overrideConfig else if index == 0 then inset0Config else insetXConfig;
        var polys := old(insets.items[index]);
        var k := ClosestInset(oracle, config, polys, old(gcodeLayer.lastPosition), limitDistance);
        gcodeLayer.queue == old(gcodeLayer.queue)
          + (if k == -1 then [] else InsetQueueing(layerIndex, polys[k], pathConfig, old(pathConfig.closedLoop)))
      ensures inset0Config.closedLoop == old(inset0Config.closedLoop) && insetXConfig.closedLoop == old(insetXConfig.closedLoop)
        && inset0Config.spiralize == old(inset0Config.spiralize)
      ensures overrideConfig != null ==> overrideConfig.closedLoop == old(overrideConfig.closedLoop)
      ensures gcodeLayer.pathFinder == old(gcodeLayer.pathFinder)
    {
      ghost var before := insets.items;
      var pathConfig: GCodePathConfig := if index == 0 then inset0Config else insetXConfig;
      if overrideConfig != null {
        pathConfig := overrideConfig;
      }
      assert pathConfig == if overrideConfig != null then overrideConfig else if index == 0 then inset0Config else insetXConfig;
      ghost var k := ClosestInset(oracle, config, before[index], gcodeLayer.lastPosition, limitDistance);
      ghost var queued := if k == -1 then [] else InsetQueueing(layerIndex, before[index][k], pathConfig, pathConfig.closedLoop);
      ghost var queue0 := gcodeLayer.queue;
      ClosestInsetIsFirstNearest(oracle, config, before[index], gcodeLayer.lastPosition, limitDistance);
      limit := QueueClosetsInset(insets, index, limitDistance, pathConfig, layerIndex, gcodeLayer);
      assert gcodeLayer.queue == queue0 + queued;
      PassStepLists(before, index, k, insets.items);
    }

    /**
     * Outside-first perimeter order (and always on the first layer): each pass
     * prints the nearest outer inset, then for each inner depth the nearest
     * inset, limited in distance once something has been printed; passes repeat
     * until every inset is printed. Each pass prints at least one inset, so the
     * loop ends.
     */
    method QueueInsetsOutsideFirst(island: LayerIsland, insetsForThisIsland: List<Polygons>,
        inset0Config: GCodePathConfig, insetXConfig: GCodePathConfig,
        overrideConfig: GCodePathConfig?, layerIndex: int, gcodeLayer: GCodePlanner)
      requires Valid() && NonEmptyInsets(insetsForThisIsland.items)
      requires |insetsForThisIsland.items| == |island.insetToolPaths|
      modifies insetsForThisIsland, gcodeLayer, inset0Config, insetXConfig, overrideConfig
      ensures forall i :: 0 <= i < |insetsForThisIsland.items| ==> insetsForThisIsland.items[i] == []
      ensures inset0Config.closedLoop == old(inset0Config.closedLoop) && insetXConfig.closedLoop == old(insetXConfig.closedLoop)
        && inset0Config.spiralize == old(inset0Config.spiralize)
      ensures overrideConfig != null ==> overrideConfig.closedLoop == old(overrideConfig.closedLoop)
      ensures gcodeLayer.pathFinder == old(gcodeLayer.pathFinder)
    {
      var insetCount := CountInsetsToPrint(insetsForThisIsland);
      while insetCount > 0
        invariant |insetsForThisIsland.items| == |island.insetToolPaths| && NonEmptyInsets(insetsForThisIsland.items)
        invariant insetCount == TotalCount(insetsForThisIsland.items)
        invariant inset0Config.closedLoop == old(inset0Config.closedLoop) && insetXConfig.closedLoop == old(insetXConfig.closedLoop)
        && inset0Config.spiralize == old(inset0Config.spiralize)
        invariant overrideConfig != null ==> overrideConfig.closedLoop == old(overrideConfig.closedLoop)
        invariant gcodeLayer.pathFinder == old(gcodeLayer.pathFinder)
        decreases insetCount
      {
        OutsideFirstPass(island, insetsForThisIsland, inset0Config, insetXConfig, overrideConfig, layerIndex, gcodeLayer);
        insetCount := CountInsetsToPrint(insetsForThisIsland);
      }
      TotalCountZero(insetsForThisIsland.items);
    }

    /** One pass of the outside-first order; it prints at least one inset. */
    method OutsideFirstPass(island: LayerIsland, insetsForThisIsland: List<Polygons>,
        inset0Config: GCodePathConfig, insetXConfig: GCodePathConfig,
        overrideConfig: GCodePathConfig?, layerIndex: int, gcodeLayer: GCodePlanner)
      requires Valid() && NonEmptyInsets(insetsForThisIsland.items)
      requires |insetsForThisIsland.items| == |island.insetToolPaths|
      modifies insetsForThisIsland, gcodeLayer, inset0Config, insetXConfig, overrideConfig
      requires TotalCount(insetsForThisIsland.items) > 0
      ensures |insetsForThisIsland.items| == |island.insetToolPaths| && NonEmptyInsets(insetsForThisIsland.items)
      ensures TotalCount(insetsForThisIsland.items) < old(TotalCount(insetsForThisIsland.items))
      ensures inset0Config.closedLoop == old(inset0Config.closedLoop) && insetXConfig.closedLoop == old(insetXConfig.closedLoop)
        && inset0Config.spiralize == old(inset0Config.spiralize)
      ensures overrideConfig != null ==> overrideConfig.closedLoop == old(overrideConfig.closedLoop)
      ensures gcodeLayer.pathFinder == old(gcodeLayer.pathFinder)
    {
      ghost var passStart := TotalCount(insetsForThisIsland.items);
      TotalCountZero(insetsForThisIsland.items);
      var limitDistance := false;
      if |island.insetToolPaths| > 0 {
        var _ := PassStep(insetsForThisIsland, 0, limitDistance, inset0Config, insetXConfig, overrideConfig, layerIndex, gcodeLayer);
      }
      for insetIndex := 1 to |island.insetToolPaths|
        invariant |insetsForThisIsland.items| == |island.insetToolPaths| && NonEmptyInsets(insetsForThisIsland.items)
        invariant TotalCount(insetsForThisIsland.items) <= passStart
        invariant TotalCount(insetsForThisIsland.items) == passStart ==>
          !limitDistance && forall j :: 0 <= j < insetIndex ==> insetsForThisIsland.items[j] == []
        invariant inset0Config.closedLoop == old(inset0Config.closedLoop) && insetXConfig.closedLoop == old(insetXConfig.closedLoop)
        && inset0Config.spiralize == old(inset0Config.spiralize)
        invariant overrideConfig != null ==> overrideConfig.closedLoop == old(overrideConfig.closedLoop)
        invariant gcodeLayer.pathFinder == old(gcodeLayer.pathFinder)
      {
        limitDistance := PassStep(insetsForThisIsland, insetIndex, limitDistance, inset0Config, insetXConfig, overrideConfig, layerIndex, gcodeLayer);
      }
      TotalCountZero(insetsForThisIsland.items);
    }

    /**
     * The best place to start the inner perimeters: the tightest turn, over the
     * polygons, nearest the head; (long.MinValue, long.MinValue) when no polygon
     * offers one.
     */
    function BestPoint(boundaryPolygons: Polygons, position: IntPoint, layerIndex: int): IntPoint
    {
      var cs := TurnCandidates(oracle, config, boundaryPolygons, position, layerIndex);
      var k := FirstMinimum(CandidateDistances(oracle, cs, position), LongMax);
      if k == -1 then IntPoint(LongMin, LongMin) else cs[k].value
    }

    /**
     * The best point is the sentinel exactly when no polygon offers a turn
     * nearer than long.MaxValue, and otherwise the turn of the first polygon
     * whose turn is strictly nearest.
     */
    lemma BestPointIsNearestTurn(boundaryPolygons: Polygons, position: IntPoint, layerIndex: int)
      ensures var cs := TurnCandidates(oracle, config, boundaryPolygons, position, layerIndex);
        var ds := CandidateDistances(oracle, cs, position);
        var best := BestPoint(boundaryPolygons, position, layerIndex);
        ((forall j :: 0 <= j < |ds| && ds[j].Some? ==> ds[j].value >= LongMax) ==> best == IntPoint(LongMin, LongMin))
        && ((exists k :: 0 <= k < |ds| && ds[k].Some? && ds[k].value < LongMax) ==>
          exists k :: 0 <= k < |cs| && cs[k] == Some(best) && ds[k].value < LongMax
            && (forall j :: 0 <= j < k && ds[j].Some? ==> ds[j].value > ds[k].value)
            && (forall j :: k < j < |ds| && ds[j].Some? ==> ds[j].value >= ds[k].value))
    {
      var cs := TurnCandidates(oracle, config, boundaryPolygons, position, layerIndex);
      var ds := CandidateDistances(oracle, cs, position);
      var r := ScanMinimum(ds, LongMax, |ds|);
      if r.0 != -1 {
        assert cs[r.0] == Some(BestPoint(boundaryPolygons, position, layerIndex));
      }
    }

    method FindBestPoint(boundaryPolygons: Polygons, position: IntPoint, layerIndex: int) returns (polyPointPosition: IntPoint)
      ensures polyPointPosition == BestPoint(boundaryPolygons, position, layerIndex)
    {
      ghost var cs := TurnCandidates(oracle, config, boundaryPolygons, position, layerIndex);
      ghost var ds := CandidateDistances(oracle, cs, position);
      ghost var bestIndex := -1;
      polyPointPosition := IntPoint(LongMin, LongMin);
      var bestDist := LongMax;
      for polygonIndex := 0 to |boundaryPolygons|
        invariant (bestIndex, bestDist) == ScanMinimum(ds, LongMax, polygonIndex)
        invariant polyPointPosition == if bestIndex == -1 then IntPoint(LongMin, LongMin) else cs[bestIndex].value
      {
        var closestToPoly := oracle.greatestTurn(boundaryPolygons[polygonIndex], config.extrusionWidthUm, layerIndex, position);
        if closestToPoly.Some? {
          var length := oracle.length(closestToPoly.value.X - position.X, closestToPoly.value.Y - position.Y);
          if length < bestDist {
            bestDist := length;
            polyPointPosition := closestToPoly.value;
            bestIndex := polygonIndex;
          }
        }
      }
    }

    /**
     * The travel the inside-out order makes for an island with no insets to
     * print: to the first point of its outline when thin walls are expanded.
     */
    function ThinWallTravel(island: LayerIsland, pathFinder: Option<PathFinder>): seq<Action>
    {
      if config.expandThinWalls && |island.islandOutline| > 0 && |island.islandOutline[0]| > 0
      then [Travel(island.islandOutline[0][0], pathFinder)]
      else []
    }

    /**
     * Inside-out perimeter order: each pass walks the depths from innermost to
     * outermost, first travelling toward the best start point, and prints the
     * nearest inset of each; passes repeat until every inset is printed. Each
     * pass prints at least one inset, so the loop ends.
     */
    method QueueInsetsInsideOut(island: LayerIsland, insetsForThisIsland: List<Polygons>,
        inset0Config: GCodePathConfig, insetXConfig: GCodePathConfig,
        overrideConfig: GCodePathConfig?, layerIndex: int, gcodeLayer: GCodePlanner)
      requires Valid() && NonEmptyInsets(insetsForThisIsland.items)
      requires |insetsForThisIsland.items| == |island.insetToolPaths|
      modifies insetsForThisIsland, gcodeLayer, inset0Config, insetXConfig, overrideConfig
      ensures forall i :: 0 <= i < |insetsForThisIsland.items| ==> insetsForThisIsland.items[i] == []
      ensures old(TotalCount(insetsForThisIsland.items)) == 0 ==>
        gcodeLayer.queue == old(gcodeLayer.queue) + ThinWallTravel(island, old(gcodeLayer.pathFinder))
      ensures inset0Config.closedLoop == old(inset0Config.closedLoop) && insetXConfig.closedLoop == old(insetXConfig.closedLoop)
        && inset0Config.spiralize == old(inset0Config.spiralize)
      ensures overrideConfig != null ==> overrideConfig.closedLoop == old(overrideConfig.closedLoop)
      ensures gcodeLayer.pathFinder == old(gcodeLayer.pathFinder)
    {
      var insetCount := CountInsetsToPrint(insetsForThisIsland);
      if insetCount == 0 && config.expandThinWalls && |island.islandOutline| > 0 && |island.islandOutline[0]| > 0 {
        gcodeLayer.QueueTravel(island.islandOutline[0][0]);
      }
      while insetCount > 0
        invariant |insetsForThisIsland.items| == |island.insetToolPaths| && NonEmptyInsets(insetsForThisIsland.items)
        invariant insetCount == TotalCount(insetsForThisIsland.items)
        invariant old(TotalCount(insetsForThisIsland.items)) == 0 ==>
          insetCount == 0 && gcodeLayer.queue == old(gcodeLayer.queue) + ThinWallTravel(island, old(gcodeLayer.pathFinder))
        invariant inset0Config.closedLoop == old(inset0Config.closedLoop) && insetXConfig.closedLoop == old(insetXConfig.closedLoop)
        && inset0Config.spiralize == old(inset0Config.spiralize)
        invariant overrideConfig != null ==> overrideConfig.closedLoop == old(overrideConfig.closedLoop)
        invariant gcodeLayer.pathFinder == old(gcodeLayer.pathFinder)
        decreases insetCount
      {
        InsideOutPass(island, insetsForThisIsland, inset0Config, insetXConfig, overrideConfig, layerIndex, gcodeLayer);
        insetCount := CountInsetsToPrint(insetsForThisIsland);
      }
      TotalCountZero(insetsForThisIsland.items);
    }

    /** One pass of the inside-out order; it prints at least one inset. */
    method InsideOutPass(island: LayerIsland, insetsForThisIsland: List<Polygons>,
        inset0Config: GCodePathConfig, insetXConfig: GCodePathConfig,
        overrideConfig: GCodePathConfig?, layerIndex: int, gcodeLayer: GCodePlanner)
      requires Valid() && NonEmptyInsets(insetsForThisIsland.items)
      requires |insetsForThisIsland.items| == |island.insetToolPaths|
      modifies insetsForThisIsland, gcodeLayer, inset0Config, insetXConfig, overrideConfig
      requires TotalCount(insetsForThisIsland.items) > 0
      ensures |insetsForThisIsland.items| == |island.insetToolPaths| && NonEmptyInsets(insetsForThisIsland.items)
      ensures TotalCount(insetsForThisIsland.items) < old(TotalCount(insetsForThisIsland.items))
      ensures inset0Config.closedLoop == old(inset0Config.closedLoop) && insetXConfig.closedLoop == old(insetXConfig.closedLoop)
        && inset0Config.spiralize == old(inset0Config.spiralize)
      ensures overrideConfig != null ==> overrideConfig.closedLoop == old(overrideConfig.closedLoop)
      ensures gcodeLayer.pathFinder == old(gcodeLayer.pathFinder)
    {
      ghost var passStart := TotalCount(insetsForThisIsland.items);
      TotalCountZero(insetsForThisIsland.items);
      var count := |island.insetToolPaths|;
      var limitDistance := false;
      var insetIndex := count - 1;
      while insetIndex >= 0
        invariant -1 <= insetIndex < count
        invariant |insetsForThisIsland.items| == |island.insetToolPaths| && NonEmptyInsets(insetsForThisIsland.items)
        invariant TotalCount(insetsForThisIsland.items) <= passStart
        invariant TotalCount(insetsForThisIsland.items) == passStart ==>
          !limitDistance && forall j :: insetIndex < j < count ==> insetsForThisIsland.items[j] == []
        invariant inset0Config.closedLoop == old(inset0Config.closedLoop) && insetXConfig.closedLoop == old(insetXConfig.closedLoop)
        && inset0Config.spiralize == old(inset0Config.spiralize)
        invariant overrideConfig != null ==> overrideConfig.closedLoop == old(overrideConfig.closedLoop)
        invariant gcodeLayer.pathFinder == old(gcodeLayer.pathFinder)
      {
        if !config.continuousSpiralOuterPerimeter && insetIndex == count - 1 {
          TravelToInnermostStart(insetsForThisIsland.items, layerIndex, gcodeLayer);
        }
        limitDistance := PassStep(insetsForThisIsland, insetIndex, limitDistance, inset0Config, insetXConfig, overrideConfig, layerIndex, gcodeLayer);
        insetIndex := insetIndex - 1;
      }
      TotalCountZero(insetsForThisIsland.items);
    }

    /**
     * Before the innermost inset of a pass: travel to the innermost inset's point
     * closest to the best start point on the outermost one, or to that start point
     * itself when the innermost inset has none; stay put when there is no start point.
     */
    method TravelToInnermostStart(insetsForThisIsland: seq<Polygons>, layerIndex: int, gcodeLayer: GCodePlanner)
      requires Valid() && |insetsForThisIsland| > 0
      modifies gcodeLayer
      ensures gcodeLayer.pathFinder == old(gcodeLayer.pathFinder)
      ensures var start := BestPoint(insetsForThisIsland[0], old(gcodeLayer.lastPosition), layerIndex);
        var innermost := insetsForThisIsland[|insetsForThisIsland| - 1];
        var found := oracle.closestPoint(innermost, start);
        gcodeLayer.queue == old(gcodeLayer.queue)
          + (if start.X == LongMin then []
             else if found.0 != -1 && found.1 != -1 then [Travel(innermost[found.0][found.1], old(gcodeLayer.pathFinder))]
             else [Travel(start, old(gcodeLayer.pathFinder))])
    {
      var count := |insetsForThisIsland|;
      var closestInsetStart := FindBestPoint(insetsForThisIsland[0], gcodeLayer.lastPosition, layerIndex);
      if closestInsetStart.X != LongMin {
        var innermost := insetsForThisIsland[count - 1];
        var found := oracle.closestPoint(innermost, closestInsetStart);
        assert ClosestPointAnswer(innermost, found);
        if found.0 != -1 && found.1 != -1 {
          gcodeLayer.QueueTravel(innermost[found.0][found.1]);
        } else {
          gcodeLayer.QueueTravel(closestInsetStart);
        }
      }
    }

    /**
     * The perimeters of one island, when it has any. When spiralizing (from the
     * first layer above the bottom layers on), only the island's first outer perimeter is queued;
     * otherwise every non-empty inset is printed, outside first on request, on
     * the first layer and never otherwise. Returns the lists left to print.
     */
    method QueueIslandPerimeters(island: LayerIsland, inset0Config: GCodePathConfig, insetXConfig: GCodePathConfig,
                                 overrideConfig: GCodePathConfig?, layerIndex: int, gcodeLayer: GCodePlanner)
      returns (insetsForThisIsland: List<Polygons>)
      requires Valid()
      requires (config.numberOfPerimeters > 0
        && (inset0Config.spiralize || (config.continuousSpiralOuterPerimeter && layerIndex >= config.numberOfBottomLayers))
        && |island.insetToolPaths| > 0) ==> |island.insetToolPaths[0]| > 0
      modifies gcodeLayer, inset0Config, insetXConfig, overrideConfig
      ensures fresh(insetsForThisIsland)
      ensures config.numberOfPerimeters <= 0 ==>
        insetsForThisIsland.items == [] && gcodeLayer.queue == old(gcodeLayer.queue)
        && inset0Config.spiralize == old(inset0Config.spiralize)
      ensures config.numberOfPerimeters > 0 ==>
        (inset0Config.spiralize <==>
          old(inset0Config.spiralize) || (config.continuousSpiralOuterPerimeter && layerIndex >= config.numberOfBottomLayers))
      ensures config.numberOfPerimeters > 0 && inset0Config.spiralize ==>
        gcodeLayer.queue == old(gcodeLayer.queue)
          + (if |island.insetToolPaths| > 0
             then [Print([island.insetToolPaths[0][0]], inset0Config.name, old(inset0Config.closedLoop))] else [])
      ensures !inset0Config.spiralize ==> forall i :: 0 <= i < |insetsForThisIsland.items| ==> insetsForThisIsland.items[i] == []
      ensures inset0Config.closedLoop == old(inset0Config.closedLoop) && insetXConfig.closedLoop == old(insetXConfig.closedLoop)
      ensures overrideConfig != null ==> overrideConfig.closedLoop == old(overrideConfig.closedLoop)
    {
      if config.numberOfPerimeters <= 0 {
        insetsForThisIsland := new List<Polygons>([]);
        return;
      }
      if config.continuousSpiralOuterPerimeter && layerIndex >= config.numberOfBottomLayers {
        inset0Config.spiralize := true;
      }
      insetsForThisIsland := BuildInsetLists(island);
      if config.outsidePerimetersFirst || layerIndex == 0 || inset0Config.spiralize {
        if inset0Config.spiralize {
          if |island.insetToolPaths| > 0 {
            var outsideSinglePolygon := island.insetToolPaths[0][0];
            var _ := gcodeLayer.QueuePolygonsByOptimizer([outsideSinglePolygon], inset0Config);
          }
        } else {
          QueueInsetsOutsideFirst(island, insetsForThisIsland, inset0Config, insetXConfig, overrideConfig, layerIndex, gcodeLayer);
        }
      } else {
        QueueInsetsInsideOut(island, insetsForThisIsland, inset0Config, insetXConfig, overrideConfig, layerIndex, gcodeLayer);
      }
    }

    /** The loop of CreateRequiredInsets: insets for each layer of the window that has islands and none yet. */
    method GenerateMissingInsets(layers: seq<SliceLayer>, startIndex: int, endIndex: int)
      requires forall i, j :: 0 <= i < j < |layers| ==> layers[i] != layers[j]
      requires 0 <= startIndex && endIndex < |layers|
      modifies set i | 0 <= i < |layers| :: layers[i]
      ensures forall i :: 0 <= i < |layers| ==>
        var layer := layers[i];
        layer.islandMemoryFreed == old(layer.islandMemoryFreed)
        && (old(layer.Valid()) ==> layer.Valid())
        && if startIndex <= i <= endIndex && |layer.islands| > 0 && !old(layer.createdInsets)
          then layer.createdInsets && layer.insetRequests == old(layer.insetRequests) + [InsetRequestFor(config, i)]
          else layer.createdInsets == old(layer.createdInsets) && layer.insetRequests == old(layer.insetRequests)
    {
      ghost var created := seq(|layers|, i requires 0 <= i < |layers| reads layers => layers[i].createdInsets);
      ghost var requests := seq(|layers|, i requires 0 <= i < |layers| reads layers => layers[i].insetRequests);
      ghost var freed := seq(|layers|, i requires 0 <= i < |layers| reads layers => layers[i].islandMemoryFreed);
      var layerIndex := startIndex;
      while layerIndex <= endIndex
        invariant layerIndex == startIndex || startIndex < layerIndex <= endIndex + 1
        invariant forall i :: 0 <= i < |layers| ==>
          var layer := layers[i];
          layer.islandMemoryFreed == freed[i]
          && if startIndex <= i < layerIndex && |layer.islands| > 0 && !created[i]
            then layer.createdInsets && layer.insetRequests == requests[i] + [InsetRequestFor(config, i)]
            else layer.createdInsets == created[i] && layer.insetRequests == requests[i]
      {
        GenerateInsetsIfMissing(layers[layerIndex], layerIndex);
        layerIndex := layerIndex + 1;
      }
    }

    method GenerateInsetsIfMissing(layer: SliceLayer, layerIndex: int)
      modifies layer
      ensures layer.islandMemoryFreed == old(layer.islandMemoryFreed)
      ensures if |layer.islands| > 0 && !old(layer.createdInsets)
        then layer.createdInsets && layer.insetRequests == old(layer.insetRequests) + [InsetRequestFor(config, layerIndex)]
        else layer.createdInsets == old(layer.createdInsets) && layer.insetRequests == old(layer.insetRequests)
    {
      if |layer.islands| > 0 && !layer.createdInsets {
        layer.createdInsets := true;
        layer.GenerateInsets(InsetRequestFor(config, layerIndex));
      }
    }

    /**
     * Builds the generated insets for the layers around `outputLayerIndex` that
     * have islands and none yet, frees the insets of the layer that has left the
     * window, and asks for tops and bottoms unless spiralizing above the bottom
     * layers.
     */
    method CreateRequiredInsets(extruders: seq<ExtruderLayers>, outputLayerIndex: int, extruderIndex: nat)
      requires config.numberOfBottomLayers >= 0
      requires extruderIndex < |extruders| ==>
        extruders[extruderIndex].Valid() && 0 <= outputLayerIndex < |extruders[extruderIndex].layers|
      modifies if extruderIndex < |extruders| then {extruders[extruderIndex]} else {}
      modifies if extruderIndex < |extruders| then extruders[extruderIndex].LayerSet() else {}
      ensures extruderIndex < |extruders| ==>
        var extruder := extruders[extruderIndex];
        var w := InsetWindow(config, outputLayerIndex, |extruder.layers|);
        extruder.Valid()
        && (forall i :: 0 <= i < |extruder.layers| ==>
          var layer := extruder.layers[i];
          if InWindow(w, i) && |layer.islands| > 0 && !old(layer.createdInsets)
          then layer.createdInsets && layer.insetRequests == old(layer.insetRequests) + [InsetRequestFor(config, i)]
          else layer.createdInsets == old(layer.createdInsets) && layer.insetRequests == old(layer.insetRequests))
        && (forall i :: 0 <= i < |extruder.layers| ==>
          extruder.layers[i].islandMemoryFreed
            == (old(extruder.layers[i].islandMemoryFreed) || (i == w.0 - 2 && w.0 > config.numberOfBottomLayers + 1)))
        && extruder.topAndBottomRequests == old(extruder.topAndBottomRequests)
          + (if !config.continuousSpiralOuterPerimeter || outputLayerIndex < config.numberOfBottomLayers
             then [TopBottomRequestFor(config, outputLayerIndex)] else [])
    {
      if extruderIndex < |extruders| {
        var extruder := extruders[extruderIndex];
        var layers := extruder.layers;
        var w := InsetWindow(config, outputLayerIndex, |layers|);
        var startIndex, endIndex := w.0, w.1;

        if startIndex > config.numberOfBottomLayers + 1 {
          var previousLayer := layers[startIndex - 2];
          previousLayer.FreeIslandMemory();
        }

        GenerateMissingInsets(layers, startIndex, endIndex);
        assert forall i :: InWindow(w, i) <==> startIndex <= i <= endIndex;

        if !config.continuousSpiralOuterPerimeter || outputLayerIndex < config.numberOfBottomLayers {
          extruder.GenerateTopAndBottoms(TopBottomRequestFor(config, outputLayerIndex));
        }
      }
    }

    /**
     * Moves the head into `island` before it is printed. Nothing happens when
     * spiralizing or when the island has no outline. When the head is already
     * inside, or the layer has only one island, only the bookkeeping changes.
     * Otherwise the head travels (through the island it is leaving, then clear
     * of it, retracting if configured) and ends on the island outline's closest
     * point. Either way the island becomes the current one and its path finder
     * plans the moves that follow.
     */
    method MoveToIsland(layerGcodePlanner: GCodePlanner, layer: SliceLayer, island: LayerIsland)
      requires Valid()
      requires |island.islandOutline| > 0 ==> HasPoint(island.islandOutline)
      modifies this, layerGcodePlanner
      ensures config.continuousSpiralOuterPerimeter || |island.islandOutline| == 0 ==>
        islandCurrentlyInside == old(islandCurrentlyInside) && layerGcodePlanner.queue == old(layerGcodePlanner.queue)
        && layerGcodePlanner.pathFinder == old(layerGcodePlanner.pathFinder)
        && layerGcodePlanner.lastPosition == old(layerGcodePlanner.lastPosition)
      ensures !config.continuousSpiralOuterPerimeter && |island.islandOutline| > 0 ==>
        islandCurrentlyInside == Some(island) && layerGcodePlanner.pathFinder == Some(island.pathFinder)
      ensures (!config.continuousSpiralOuterPerimeter && |island.islandOutline| > 0
        && (|layer.islands| == 1 || oracle.pointIsInside(island.pathFinder, old(layerGcodePlanner.lastPosition)))) ==>
        layerGcodePlanner.queue == old(layerGcodePlanner.queue)
        && layerGcodePlanner.lastPosition == old(layerGcodePlanner.lastPosition)
      ensures (!config.continuousSpiralOuterPerimeter && |island.islandOutline| > 0
        && !(|layer.islands| == 1 || oracle.pointIsInside(island.pathFinder, old(layerGcodePlanner.lastPosition)))) ==>
        var c := oracle.closestPoint(island.islandOutline, old(layerGcodePlanner.lastPosition));
        var target := island.islandOutline[c.0][c.1];
        var n := |old(layerGcodePlanner.queue)|;
        var q := layerGcodePlanner.queue;
        n < |q| && q[..n] == old(layerGcodePlanner.queue)
        && q[|q| - 1].Travel? && q[|q| - 1].to == target
        && layerGcodePlanner.lastPosition == target
        && (forall k :: n <= k < |q| ==> !q[k].Print?)
        && (config.retractWhenChangingIslands ==> n + 2 <= |q| && q[|q| - 2] == Retract)
    {
      if config.continuousSpiralOuterPerimeter {
        return;
      }

      if |island.islandOutline| > 0 {
        if |layer.islands| == 1 || oracle.pointIsInside(island.pathFinder, layerGcodePlanner.lastPosition) {
          islandCurrentlyInside := Some(island);
          layerGcodePlanner.pathFinder := Some(island.pathFinder);
          return;
        }

        ghost var n := |layerGcodePlanner.queue|;
        var closestPointOnNextIsland := oracle.closestPoint(island.islandOutline, layerGcodePlanner.lastPosition);
        assert ClosestPointAnswer(island.islandOutline, closestPointOnNextIsland);
        var closestNextIslandPoint := island.islandOutline[closestPointOnNextIsland.0][closestPointOnNextIsland.1];

        if islandCurrentlyInside.Some? && |islandCurrentlyInside.value.pathFinder.outlinePolygons| > 0
          && |islandCurrentlyInside.value.pathFinder.outlinePolygons[0]| > 3
        {
          var polygons := islandCurrentlyInside.value.pathFinder.outlinePolygons;
          var closestPointOnLastIsland := oracle.closestPoint(polygons, closestNextIslandPoint);
          assert ClosestPointAnswer(polygons, closestPointOnLastIsland);
          var closestLastIslandPoint := polygons[closestPointOnLastIsland.0][closestPointOnLastIsland.1];
          layerGcodePlanner.pathFinder := Some(islandCurrentlyInside.value.pathFinder);
          layerGcodePlanner.QueueTravel(closestLastIslandPoint);
        }

        var moveDistance := oracle.length(closestNextIslandPoint.X - layerGcodePlanner.lastPosition.X,
          closestNextIslandPoint.Y - layerGcodePlanner.lastPosition.Y);
        var islandAvoidDistance := layer.pathFinder.insetAmount;
        if moveDistance > islandAvoidDistance {
          layerGcodePlanner.pathFinder := None;
          var awayFromIslandPosition := oracle.stepToward(layerGcodePlanner.lastPosition, closestNextIslandPoint, islandAvoidDistance);
          layerGcodePlanner.QueueTravel(awayFromIslandPosition);
          layerGcodePlanner.pathFinder := Some(layer.pathFinder);
        }

        if config.retractWhenChangingIslands {
          layerGcodePlanner.ForceRetract();
        }

        layerGcodePlanner.QueueTravel(closestNextIslandPoint);

        islandCurrentlyInside := Some(island);
        layerGcodePlanner.pathFinder := Some(island.pathFinder);
      }
    }
  }
}
