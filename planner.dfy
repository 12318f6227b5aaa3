/**
 * The parts of the G-code planner the layer sequencing talks to. The planner
 * itself is outside this model: it is reduced to a queue of the actions asked
 * of it, the last position it moved to and the path finder it plans travel with.
 */
module Planner {
  import opened Geometry

  datatype Option<T> = None | Some(value: T)

  /** An island's or a layer's travel planner: the outline it keeps moves inside, and how far inside. */
  datatype PathFinder = PathFinder(outlinePolygons: Polygons, insetAmount: int)

  datatype Action =
    | Travel(to: IntPoint, pathFinder: Option<PathFinder>)
    | Print(paths: Polygons, configName: string, closedLoop: bool)
    | Retract

  /** How one kind of line is printed. Only `closedLoop` and `spiralize` change in the modelled code. */
  class GCodePathConfig {
    const name: string
    const lineWidthUm: int
    var closedLoop: bool
    var spiralize: bool

    constructor (name: string, lineWidthUm: int, closedLoop: bool)
      ensures this.name == name && this.lineWidthUm == lineWidthUm
      ensures this.closedLoop == closedLoop && !spiralize
    {
      this.name := name;
      this.lineWidthUm := lineWidthUm;
      this.closedLoop := closedLoop;
      spiralize := false;
    }
  }

  class GCodePlanner {
    /** Where the optimizer leaves the head after printing the given paths from the given position. */
    const pathEnd: (IntPoint, Polygons) -> IntPoint
    var lastPosition: IntPoint
    var pathFinder: Option<PathFinder>
    var queue: seq<Action>

    constructor (pathEnd: (IntPoint, Polygons) -> IntPoint, start: IntPoint)
      ensures this.pathEnd == pathEnd && lastPosition == start && pathFinder == None && queue == []
    {
      this.pathEnd := pathEnd;
      lastPosition := start;
      pathFinder := None;
      queue := [];
    }

    method QueueTravel(position: IntPoint)
      modifies this
      ensures queue == old(queue) + [Travel(position, old(pathFinder))]
      ensures lastPosition == position && pathFinder == old(pathFinder)
    {
      queue := queue + [Travel(position, pathFinder)];
      lastPosition := position;
    }

    /** Queues the paths in the optimizer's order; answers whether there was anything to queue. */
    method QueuePolygonsByOptimizer(polygons: Polygons, config: GCodePathConfig) returns (queued: bool)
      modifies this
      ensures queued == (|polygons| > 0)
      ensures queue == old(queue) + (if queued then [Print(polygons, config.name, config.closedLoop)] else [])
      ensures lastPosition == (if queued then pathEnd(old(lastPosition), polygons) else old(lastPosition))
      ensures pathFinder == old(pathFinder)
    {
      if |polygons| > 0 {
        queue := queue + [Print(polygons, config.name, config.closedLoop)];
        lastPosition := pathEnd(lastPosition, polygons);
        return true;
      }
      return false;
    }

    method ForceRetract()
      modifies this
      ensures queue == old(queue) + [Retract]
      ensures lastPosition == old(lastPosition) && pathFinder == old(pathFinder)
    {
      queue := queue + [Retract];
    }
  }
}
