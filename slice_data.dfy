/**
 * The sliced model as the layer sequencing sees it: per extruder a stack of
 * layers, each layer a set of islands. Inset and top/bottom generation belong
 * to other files; here they only record what they were asked for.
 */
module SliceData {
  import opened Geometry
  import opened Planner

  /** One connected region of a layer, with its travel planner and its perimeter tool paths (outermost first). */
  datatype LayerIsland = LayerIsland(islandOutline: Polygons, pathFinder: PathFinder, insetToolPaths: seq<Polygons>)

  /** The arguments of one SliceLayer.GenerateInsets call. */
  datatype InsetRequest = InsetRequest(
    extrusionWidthUm: int,
    outerExtrusionWidthUm: int,
    insetCount: int,
    expandThinWalls: bool,
    avoidCrossingPerimeters: bool)

  /** The arguments of one ExtruderLayers.GenerateTopAndBottoms call. */
  datatype TopBottomRequest = TopBottomRequest(
    layerIndex: int,
    extrusionWidthUm: int,
    outerExtrusionWidthUm: int,
    bottomLayers: int,
    topLayers: int,
    infillExtendIntoPerimeterUm: int)

  class SliceLayer {
    const islands: seq<LayerIsland>
    const pathFinder: PathFinder
    var createdInsets: bool
    /** Every GenerateInsets call made on this layer, in order. */
    var insetRequests: seq<InsetRequest>
    var islandMemoryFreed: bool

    /** Insets are made at most once, and exactly when the flag says so. */
    ghost predicate Valid()
      reads this
    {
      |insetRequests| <= 1 && (createdInsets <==> |insetRequests| == 1)
    }

    constructor (islands: seq<LayerIsland>, pathFinder: PathFinder)
      ensures this.islands == islands && this.pathFinder == pathFinder
      ensures !createdInsets && insetRequests == [] && !islandMemoryFreed
      ensures Valid()
    {
      this.islands := islands;
      this.pathFinder := pathFinder;
      createdInsets := false;
      insetRequests := [];
      islandMemoryFreed := false;
    }

    method GenerateInsets(request: InsetRequest)
      modifies this
      ensures insetRequests == old(insetRequests) + [request]
      ensures createdInsets == old(createdInsets) && islandMemoryFreed == old(islandMemoryFreed)
    {
      insetRequests := insetRequests + [request];
    }

    method FreeIslandMemory()
      modifies this
      ensures islandMemoryFreed
      ensures createdInsets == old(createdInsets) && insetRequests == old(insetRequests)
    {
      islandMemoryFreed := true;
    }
  }

  class ExtruderLayers {
    const layers: seq<SliceLayer>
    var topAndBottomRequests: seq<TopBottomRequest>

    ghost function LayerSet(): set<SliceLayer>
    {
      set i | 0 <= i < |layers| :: layers[i]
    }

    /** The layers are distinct objects, each keeping its own invariant. */
    ghost predicate Valid()
      reads this, LayerSet()
    {
      (forall i, j :: 0 <= i < j < |layers| ==> layers[i] != layers[j])
      && forall i :: 0 <= i < |layers| ==> layers[i].Valid()
    }

    constructor (layers: seq<SliceLayer>)
      ensures this.layers == layers && topAndBottomRequests == []
    {
      this.layers := layers;
      topAndBottomRequests := [];
    }

    method GenerateTopAndBottoms(request: TopBottomRequest)
      modifies this
      ensures topAndBottomRequests == old(topAndBottomRequests) + [request]
    {
      topAndBottomRequests := topAndBottomRequests + [request];
    }
  }
}
