/**
 * Shared vocabulary: C# integer widths, MSClipperLib's IntPoint, polygons,
 * regions, and the clipping primitives the slicer calls but does not implement.
 */
module Geometry {

  const LongMin: int := -0x8000_0000_0000_0000
  const LongMax: int := 0x7FFF_FFFF_FFFF_FFFF

  /** A value of C#'s `long`. */
  type Long = x: int | LongMin <= x <= LongMax

  /** MSClipperLib's IntPoint, reduced to its X and Y coordinates (micrometres). */
  datatype IntPoint = IntPoint(X: Long, Y: Long)

  /** `List<IntPoint>`: a closed loop or an open polyline, depending on who uses it. */
  type Polygon = seq<IntPoint>

  /** `List<List<IntPoint>>`. */
  type Polygons = seq<Polygon>

  /**
   * The area a `Polygons` value describes, viewed as the set of points it covers.
   * Union, difference and intersection of Polygons are union, difference and
   * intersection of these sets; `polygons.Count > 0` is read as "the region is non-empty".
   */
  type Region = set<IntPoint>

  function Abs(x: int): nat { if x < 0 then -x else x }

  /** C#'s integer `/`, which truncates toward zero (Dafny's `/` is Euclidean). */
  function TruncDiv(a: int, b: int): int
    requires b != 0
  {
    var m := Abs(a) / Abs(b);
    if (a >= 0) == (b > 0) then m else -m
  }

  /** Truncating division is odd in its numerator: `(-w) / 2 == -(w / 2)` in C#. */
  lemma TruncDivNegate(a: int, b: int)
    requires b != 0
    ensures TruncDiv(-a, b) == -TruncDiv(a, b)
  {
    assert Abs(-a) == Abs(a);
  }

  /** The distance Clipper.CleanPolygons is always called with by the support code. */
  const CleanDistanceUm: int := 10

  /**
   * The polygon-clipping library, which is external: `clean(r, d)` is
   * `Clipper.CleanPolygons(r, d)` and `offset(r, d)` is `r.Offset(d)` (grow for
   * positive d, shrink for negative d). Nothing is assumed of them unless a lemma
   * says so.
   */
  datatype Clipper = Clipper(clean: (Region, int) -> Region, offset: (Region, int) -> Region)

  /** Cleaning only ever removes area (merging near-duplicate vertices never adds any). */
  ghost predicate CleanShrinks(k: Clipper)
  {
    forall r: Region :: k.clean(r, CleanDistanceUm) <= r
  }

  /** Cleaning changes nothing: the "before cleaning" reading of the support passes. */
  ghost predicate CleanExact(k: Clipper)
  {
    forall r: Region :: k.clean(r, CleanDistanceUm) == r
  }
}
