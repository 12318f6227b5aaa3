/**
 * PolygonHelper: small integer algorithms on polygons, and the axis-aligned
 * bounding box Aabb.
 */
module PolygonHelper {
  import opened Geometry
  import opened Collections

  // ---------------------------------------------------------------------------
  // Coordinates, sums and extremes
  // ---------------------------------------------------------------------------

  function Xs(p: Polygon): (r: seq<int>)
    ensures |r| == |p| && forall i :: 0 <= i < |p| ==> r[i] == p[i].X
  {
    seq(|p|, i requires 0 <= i < |p| => p[i].X)
  }

  function Ys(p: Polygon): (r: seq<int>)
    ensures |r| == |p| && forall i :: 0 <= i < |p| ==> r[i] == p[i].Y
  {
    seq(|p|, i requires 0 <= i < |p| => p[i].Y)
  }

  function Sum(s: seq<int>): int
  {
    if s == [] then 0 else Sum(s[..|s| - 1]) + s[|s| - 1]
  }

  /** The smallest of `start` and the elements of `s`: a running minimum seeded with `start`. */
  function Least(s: seq<int>, start: int): (m: int)
    ensures m <= start
    ensures forall i :: 0 <= i < |s| ==> m <= s[i]
    ensures m == start || exists i :: 0 <= i < |s| && m == s[i]
  {
    if s == [] then start
    else
      var rest := Least(s[..|s| - 1], start);
      if s[|s| - 1] < rest then s[|s| - 1] else rest
  }

  /** The largest of `start` and the elements of `s`. */
  function Greatest(s: seq<int>, start: int): (m: int)
    ensures m >= start
    ensures forall i :: 0 <= i < |s| ==> s[i] <= m
    ensures m == start || exists i :: 0 <= i < |s| && m == s[i]
  {
    if s == [] then start
    else
      var rest := Greatest(s[..|s| - 1], start);
      if s[|s| - 1] > rest then s[|s| - 1] else rest
  }

  /** A sum of `n` values, each between `lo` and `hi`, lies between `n * lo` and `n * hi`. */
  lemma {:induction false} SumBounds(s: seq<int>, lo: int, hi: int)
    requires forall i :: 0 <= i < |s| ==> lo <= s[i] <= hi
    ensures lo * |s| <= Sum(s) <= hi * |s|
  {
    if s != [] {
      var init := s[..|s| - 1];
      assert forall i :: 0 <= i < |init| ==> init[i] == s[i];
      SumBounds(init, lo, hi);
      assert lo * |s| == lo * |init| + lo;
      assert hi * |s| == hi * |init| + hi;
    }
  }

  lemma NatDivBounds(a: nat, m: int, n: int)
    requires n > 0
    ensures m * n <= a ==> m <= a / n
    ensures a <= m * n ==> a / n <= m
  {
    var q, r := a / n, a % n;
    assert a == q * n + r && 0 <= r < n;
    assert (q + 1) * n == q * n + n;
    assert (m + 1) * n == m * n + n;
    if m * n <= a && q < m {
      MulMonotone(q + 1, m, n);
    }
    if a <= m * n && q > m {
      MulMonotone(m + 1, q, n);
    }
  }

  lemma MulMonotone(x: int, y: int, n: int)
    requires x <= y && n > 0
    ensures x * n <= y * n
  {
    assert y * n - x * n == (y - x) * n;
  }

  /** C#'s truncating `s / n` of a sum of `n` values between `lo` and `hi` is again between `lo` and `hi`. */
  lemma TruncDivBounds(s: int, n: int, lo: int, hi: int)
    requires n > 0 && lo * n <= s <= hi * n
    ensures lo <= TruncDiv(s, n) <= hi
  {
    if s >= 0 {
      NatDivBounds(s, lo, n);
      NatDivBounds(s, hi, n);
    } else {
      assert (-lo) * n == -(lo * n) && (-hi) * n == -(hi * n);
      NatDivBounds(-s, -lo, n);
      NatDivBounds(-s, -hi, n);
    }
  }

  /**
   * The integer centre of mass of a polygon's vertices: the coordinate sums
   * divided by the vertex count, truncating toward zero. It lies inside the
   * bounding box of the vertices. C# divides by zero on an empty polygon.
   */
  method CenterOfMass(polygon: Polygon) returns (center: IntPoint)
    requires |polygon| > 0
    ensures center.X == TruncDiv(Sum(Xs(polygon)), |polygon|)
    ensures center.Y == TruncDiv(Sum(Ys(polygon)), |polygon|)
    ensures Least(Xs(polygon), LongMax) <= center.X <= Greatest(Xs(polygon), LongMin)
    ensures Least(Ys(polygon), LongMax) <= center.Y <= Greatest(Ys(polygon), LongMin)
  {
    var sumX := 0;
    var sumY := 0;
    for positionIndex := 0 to |polygon|
      invariant sumX == Sum(Xs(polygon[..positionIndex]))
      invariant sumY == Sum(Ys(polygon[..positionIndex]))
    {
      assert Xs(polygon[..positionIndex + 1])[..positionIndex] == Xs(polygon[..positionIndex]);
      assert Ys(polygon[..positionIndex + 1])[..positionIndex] == Ys(polygon[..positionIndex]);
      sumX := sumX + polygon[positionIndex].X;
      sumY := sumY + polygon[positionIndex].Y;
    }
    assert polygon[..|polygon|] == polygon;
    var n := |polygon|;
    var loX, hiX := Least(Xs(polygon), LongMax), Greatest(Xs(polygon), LongMin);
    var loY, hiY := Least(Ys(polygon), LongMax), Greatest(Ys(polygon), LongMin);
    SumBounds(Xs(polygon), loX, hiX);
    SumBounds(Ys(polygon), loY, hiY);
    TruncDivBounds(sumX, n, loX, hiX);
    TruncDivBounds(sumY, n, loY, hiY);
    center := IntPoint(TruncDiv(sumX, n), TruncDiv(sumY, n));
  }

  /** The smallest X of the polygon, or `long.MaxValue` when it has no points. */
  method MinX(polygon: Polygon) returns (minX: int)
    ensures minX == Least(Xs(polygon), LongMax)
    ensures |polygon| == 0 ==> minX == LongMax
    ensures forall i :: 0 <= i < |polygon| ==> minX <= polygon[i].X
    ensures |polygon| > 0 ==> exists i :: 0 <= i < |polygon| && minX == polygon[i].X
  {
    minX := LongMax;
    for i := 0 to |polygon|
      invariant minX == Least(Xs(polygon[..i]), LongMax)
    {
      assert Xs(polygon[..i + 1])[..i] == Xs(polygon[..i]);
      if polygon[i].X < minX {
        minX := polygon[i].X;
      }
    }
    assert polygon[..|polygon|] == polygon;
  }

  // ---------------------------------------------------------------------------
  // Shape equality up to rotation
  // ---------------------------------------------------------------------------

  /** The `j`-th point of `b` read cyclically from index `k`. */
  function CyclicAt(b: Polygon, k: int, j: int): IntPoint
    requires |b| > 0
  {
    b[(k + j) % |b|]
  }

  lemma CyclicAtInRange(b: Polygon, k: int, j: int)
    requires 0 <= k + j < |b|
    ensures CyclicAt(b, k, j) == b[k + j]
  {
    assert (k + j) % |b| == k + j;
  }

  /** `a` read from the start is `b` read cyclically from `k`. */
  ghost predicate RotatedBy(a: Polygon, b: Polygon, k: int)
  {
    |a| == |b| && 0 <= k < |b| && forall j :: 0 <= j < |a| ==> a[j] == CyclicAt(b, k, j)
  }

  function FirstIndexOf(b: Polygon, x: IntPoint): (k: int)
    ensures -1 <= k < |b|
    ensures k >= 0 ==> b[k] == x && forall j :: 0 <= j < k ==> b[j] != x
    ensures k == -1 ==> forall j :: 0 <= j < |b| ==> b[j] != x
  {
    if b == [] then -1
    else if b[0] == x then 0
    else var k := FirstIndexOf(b[1..], x); if k == -1 then -1 else k + 1
  }

  lemma FirstIndexOfIs(b: Polygon, x: IntPoint, k: nat)
    requires k < |b| && b[k] == x && forall j :: 0 <= j < k ==> b[j] != x
    ensures FirstIndexOf(b, x) == k
  {
  }

  /** What DescribesSameShape answers: `b` read from the FIRST occurrence of `a[0]` matches `a`. */
  ghost predicate SameShapeAsWritten(a: Polygon, b: Polygon)
  {
    |a| == |b| && |a| > 0 && RotatedBy(a, b, FirstIndexOf(b, a[0]))
  }

  method DescribesSameShape(a: Polygon, b: Polygon) returns (same: bool)
    ensures same == SameShapeAsWritten(a, b)
    ensures |a| != |b| || |a| == 0 ==> !same
  {
    if |a| != |b| {
      return false;
    }
    for indexB := 0 to |b|
      invariant forall j :: 0 <= j < indexB ==> b[j] != a[0]
    {
      if a[0] == b[indexB] {
        FirstIndexOfIs(b, a[0], indexB);
        for indexA := 1 to |a|
          invariant forall j :: 0 < j < indexA ==> a[j] == CyclicAt(b, indexB, j)
        {
          if a[indexA] != CyclicAt(b, indexB, indexA) {
            assert !RotatedBy(a, b, indexB);
            return false;
          }
        }
        CyclicAtInRange(b, indexB, 0);
        assert RotatedBy(a, b, indexB);
        return true;
      }
    }
    assert |a| > 0 ==> FirstIndexOf(b, a[0]) == -1;
    return false;
  }

  /** A true answer means `b` is `a` rotated, starting where `a[0]` first occurs in `b`. */
  lemma SameShapeIsRotation(a: Polygon, b: Polygon)
    requires SameShapeAsWritten(a, b)
    ensures exists k :: RotatedBy(a, b, k) && b[k] == a[0] && forall j :: 0 <= j < k ==> b[j] != a[0]
  {
    var k := FirstIndexOf(b, a[0]);
    assert RotatedBy(a, b, k);
  }

  /** Every non-empty polygon describes the same shape as itself. */
  lemma SameShapeReflexive(a: Polygon)
    requires |a| > 0
    ensures SameShapeAsWritten(a, a)
  {
    assert FirstIndexOf(a, a[0]) == 0;
    forall j | 0 <= j < |a|
      ensures a[j] == CyclicAt(a, 0, j)
    {
      CyclicAtInRange(a, 0, j);
    }
  }

  /** The evident intent: `b` is some rotation of `a`. */
  ghost predicate IsRotation(a: Polygon, b: Polygon)
  {
    |a| > 0 && exists k :: RotatedBy(a, b, k)
  }

  /** Where `a[0]` occurs only once in `b`, DescribesSameShape decides rotation exactly. */
  lemma SameShapeAsWrittenExactWhenStartUnique(a: Polygon, b: Polygon)
    requires |a| > 0 && |a| == |b|
    requires forall i, j :: 0 <= i < j < |b| && b[i] == a[0] ==> b[j] != a[0]
    ensures SameShapeAsWritten(a, b) <==> IsRotation(a, b)
  {
    var first := FirstIndexOf(b, a[0]);
    if IsRotation(a, b) {
      var k :| RotatedBy(a, b, k);
      CyclicAtInRange(b, k, 0);
      assert b[k] == a[0];
      assert first != -1 && first <= k;
      assert first == k;
    }
    if SameShapeAsWritten(a, b) {
      assert RotatedBy(a, b, first);
    }
  }

  /** A rotation DescribesSameShape rejects: `a[0]` occurs twice in `b`, and the first occurrence is the wrong start. */
  lemma SameShapeMissesRotation()
    ensures var p, q, r := IntPoint(0, 0), IntPoint(1, 0), IntPoint(0, 1);
      var a, b := [p, q, p, r], [p, r, p, q];
      IsRotation(a, b) && !SameShapeAsWritten(a, b)
  {
    var p, q, r := IntPoint(0, 0), IntPoint(1, 0), IntPoint(0, 1);
    var a, b := [p, q, p, r], [p, r, p, q];
    assert FirstIndexOf(b, a[0]) == 0;
    assert a[1] != CyclicAt(b, 0, 1);
    assert a[0] == CyclicAt(b, 2, 0) && a[1] == CyclicAt(b, 2, 1) && a[2] == CyclicAt(b, 2, 2) && a[3] == CyclicAt(b, 2, 3);
    assert RotatedBy(a, b, 2);
  }

  /** Shape equality as intended: tries every start in `b`, not only the first match of `a[0]`. */
  method DescribesSameShapeAnyStart(a: Polygon, b: Polygon) returns (same: bool)
    ensures same <==> IsRotation(a, b)
  {
    if |a| != |b| || |a| == 0 {
      return false;
    }
    for start := 0 to |b|
      invariant forall k :: 0 <= k < start ==> !RotatedBy(a, b, k)
    {
      var matches := true;
      for indexA := 0 to |a|
        invariant matches <==> forall j :: 0 <= j < indexA ==> a[j] == CyclicAt(b, start, j)
      {
        if a[indexA] != CyclicAt(b, start, indexA) {
          matches := false;
        }
      }
      if matches {
        assert RotatedBy(a, b, start);
        return true;
      }
    }
    return false;
  }

  // ---------------------------------------------------------------------------
  // Turning direction
  // ---------------------------------------------------------------------------

  /** Cross product of (p1 - p0) and (p2 - p1): positive for a left turn at p1, negative for a right turn. */
  function Turn(p0: IntPoint, p1: IntPoint, p2: IntPoint): int
  {
    (p1.X - p0.X) * (p2.Y - p1.Y) - (p1.Y - p0.Y) * (p2.X - p1.X)
  }

  function PreviousIndex(n: nat, vertex: nat): nat
    requires vertex < n
  {
    if vertex == 0 then n - 1 else vertex - 1
  }

  function NextIndex(n: nat, vertex: nat): nat
    requires vertex < n
  {
    (vertex + 1) % n
  }

  lemma NextIndexWraps(n: nat, vertex: nat)
    requires vertex < n
    ensures NextIndex(n, vertex) == if vertex == n - 1 then 0 else vertex + 1
  {
    if vertex < n - 1 {
      assert (vertex + 1) % n == vertex + 1;
    } else {
      assert (vertex + 1) % n == 0;
    }
  }

  /** The polygon turns right (clockwise) at `vertex`, with the neighbours taken cyclically. */
  predicate IsVertexConcave(vertices: Polygon, vertex: nat): (r: bool)
    requires vertex < |vertices|
    ensures r ==> var n := |vertices|;
      var p0, p1, p2 := vertices[PreviousIndex(n, vertex)], vertices[vertex], vertices[NextIndex(n, vertex)];
      p0 != p1 && p1 != p2 && p0 != p2
  {
    var current := vertices[vertex];
    var next := vertices[NextIndex(|vertices|, vertex)];
    var previous := vertices[PreviousIndex(|vertices|, vertex)];
    var leftX, leftY := current.X - previous.X, current.Y - previous.Y;
    var rightX, rightY := next.X - current.X, next.Y - current.Y;
    var cross := leftX * rightY - leftY * rightX;
    cross < 0
  }

  /** True if p0 -> p1 -> p2 is strictly convex. */
  predicate Convex3(p0: IntPoint, p1: IntPoint, p2: IntPoint): (r: bool)
    ensures r ==> p0 != p1 && p1 != p2 && p0 != p2
  {
    (p1.Y - p0.Y) * (p1.X - p2.X) > (p0.X - p1.X) * (p2.Y - p1.Y)
  }

  /** convex3 is a strict left turn, and a concave vertex a strict right turn: the two never agree. */
  lemma ConvexAndConcaveAreOppositeTurns(vertices: Polygon, vertex: nat)
    requires vertex < |vertices|
    ensures var n := |vertices|;
      var p0, p1, p2 := vertices[PreviousIndex(n, vertex)], vertices[vertex], vertices[NextIndex(n, vertex)];
      (Convex3(p0, p1, p2) <==> Turn(p0, p1, p2) > 0)
      && (IsVertexConcave(vertices, vertex) <==> Turn(p0, p1, p2) < 0)
      && !(Convex3(p0, p1, p2) && IsVertexConcave(vertices, vertex))
  {
    var n := |vertices|;
    var p0, p1, p2 := vertices[PreviousIndex(n, vertex)], vertices[vertex], vertices[NextIndex(n, vertex)];
    assert (p1.Y - p0.Y) * (p1.X - p2.X) == -((p1.Y - p0.Y) * (p2.X - p1.X));
    assert (p0.X - p1.X) * (p2.Y - p1.Y) == -((p1.X - p0.X) * (p2.Y - p1.Y));
  }

  function Reversed(v: Polygon): (r: Polygon)
    ensures |r| == |v| && forall i :: 0 <= i < |v| ==> r[i] == v[|v| - 1 - i]
  {
    seq(|v|, i requires 0 <= i < |v| => v[|v| - 1 - i])
  }

  lemma TurnReversed(a: IntPoint, b: IntPoint, c: IntPoint)
    ensures Turn(c, b, a) == -Turn(a, b, c)
  {
    assert (b.X - c.X) * (a.Y - b.Y) == (c.X - b.X) * (b.Y - a.Y);
    assert (b.Y - c.Y) * (a.X - b.X) == (c.Y - b.Y) * (b.X - a.X);
  }

  /**
   * Reversing a polygon turns each convex vertex into a concave one: vertex
   * `n-1-k` of the reversed polygon is concave exactly when vertex `k` of the
   * original is strictly convex.
   */
  lemma ConcaveInReversed(v: Polygon, k: nat)
    requires |v| >= 3 && k < |v|
    ensures var n := |v|;
      IsVertexConcave(Reversed(v), n - 1 - k) <==> Convex3(v[PreviousIndex(n, k)], v[k], v[NextIndex(n, k)])
  {
    var n := |v|;
    var w := Reversed(v);
    var m := n - 1 - k;
    var a, b, c := v[PreviousIndex(n, k)], v[k], v[NextIndex(n, k)];
    NextIndexWraps(n, k);
    NextIndexWraps(n, m);
    assert w[PreviousIndex(n, m)] == c;
    assert w[NextIndex(n, m)] == a;
    ConvexAndConcaveAreOppositeTurns(v, k);
    assert Convex3(a, b, c) <==> Turn(a, b, c) > 0;
    ConvexAndConcaveAreOppositeTurns(w, m);
    assert IsVertexConcave(w, m) <==> Turn(c, b, a) < 0;
    TurnReversed(a, b, c);
  }

  // ---------------------------------------------------------------------------
  // Removing redundant vertices
  // ---------------------------------------------------------------------------

  /** The sqrt-based vector helpers OptimizePolygon calls: `(dx, dy).IsShorterThen(len)` and `(dx, dy).SetLength(len)`. */
  datatype VectorOps = VectorOps(isShorterThen: (int, int, int) -> bool, setLength: (int, int, int) -> (int, int))

  /** `(previous - current).IsShorterThen(10)`: the vertex duplicates the one kept before it. */
  predicate TooClose(ops: VectorOps, previous: IntPoint, current: IntPoint)
  {
    ops.isShorterThen(previous.X - current.X, previous.Y - current.Y, 10)
  }

  /** The edges into and out of `current`, scaled to length 1e6, point almost exactly opposite ways. */
  predicate DoublesBack(ops: VectorOps, previous: IntPoint, current: IntPoint, next: IntPoint)
  {
    var diff0 := ops.setLength(current.X - previous.X, current.Y - previous.Y, 1000000);
    var diff2 := ops.setLength(current.X - next.X, current.Y - next.Y, 1000000);
    diff0.0 * diff2.0 + diff0.1 * diff2.1 < -999999000000
  }

  /** `s` with vertices `i` onward filtered, `previous` being the last vertex kept. */
  function OptimizeFrom(ops: VectorOps, s: Polygon, i: nat, previous: IntPoint): (r: Polygon)
    requires i <= |s|
    ensures i <= |r| <= |s| && forall j :: 0 <= j < i ==> r[j] == s[j]
    decreases |s| - i
  {
    if i == |s| then s
    else
      var current := s[i];
      if TooClose(ops, previous, current) then OptimizeFrom(ops, RemovedAt(s, i), i, previous)
      else
        var next := if i < |s| - 1 then s[i + 1] else s[0];
        if DoublesBack(ops, previous, current, next) then OptimizeFrom(ops, RemovedAt(s, i), i, previous)
        else OptimizeFrom(ops, s, i + 1, current)
  }

  function Optimized(ops: VectorOps, s: Polygon): Polygon
    requires |s| > 0
  {
    OptimizeFrom(ops, s, 0, s[|s| - 1])
  }

  /**
   * Drops every vertex that is within 10 units of the vertex kept before it, or
   * where the outline doubles straight back on itself, editing the list in place.
   * C# reads `polygon[Count - 1]` first, so the polygon must not be empty.
   */
  method OptimizePolygon(polygon: List<IntPoint>, ops: VectorOps)
    requires |polygon.items| > 0
    modifies polygon
    ensures polygon.items == Optimized(ops, old(polygon.items))
  {
    ghost var original := polygon.items;
    var previousPoint := polygon.items[|polygon.items| - 1];
    var i := 0;
    while i < polygon.Count()
      invariant 0 <= i <= |polygon.items|
      invariant OptimizeFrom(ops, polygon.items, i, previousPoint) == Optimized(ops, original)
      decreases |polygon.items| - i
    {
      var currentPoint := polygon.items[i];
      if TooClose(ops, previousPoint, currentPoint) {
        polygon.RemoveAt(i);
      } else {
        var nextPoint;
        if i < polygon.Count() - 1 {
          nextPoint := polygon.items[i + 1];
        } else {
          nextPoint := polygon.items[0];
        }
        if DoublesBack(ops, previousPoint, currentPoint, nextPoint) {
          polygon.RemoveAt(i);
        } else {
          previousPoint := currentPoint;
          i := i + 1;
        }
      }
    }
  }

  /** `r` is `s` with some elements left out, the rest in their original order. */
  ghost predicate IsSubsequence(r: Polygon, s: Polygon)
    decreases |s|
  {
    if r == [] then true
    else if s == [] then false
    else (r[0] == s[0] && IsSubsequence(r[1..], s[1..])) || IsSubsequence(r, s[1..])
  }

  lemma {:induction false} SubsequenceOfItself(s: Polygon)
    ensures IsSubsequence(s, s)
    decreases |s|
  {
    if s != [] {
      SubsequenceOfItself(s[1..]);
    }
  }

  lemma {:induction false} SubsequenceTransitive(a: Polygon, b: Polygon, c: Polygon)
    requires IsSubsequence(a, b) && IsSubsequence(b, c)
    ensures IsSubsequence(a, c)
    decreases |c|
  {
    if a != [] {
      assert b != [] && c != [];
      if b[0] == c[0] && IsSubsequence(b[1..], c[1..]) {
        if a[0] == b[0] && IsSubsequence(a[1..], b[1..]) {
          SubsequenceTransitive(a[1..], b[1..], c[1..]);
        } else {
          SubsequenceTransitive(a, b[1..], c[1..]);
        }
      } else {
        SubsequenceTransitive(a, b, c[1..]);
      }
    }
  }

  lemma {:induction false} RemovedAtIsSubsequence(s: Polygon, i: nat)
    requires i < |s|
    ensures IsSubsequence(RemovedAt(s, i), s)
    decreases i
  {
    var r := RemovedAt(s, i);
    if i == 0 {
      assert r == s[1..];
      SubsequenceOfItself(s[1..]);
    } else {
      assert r[0] == s[0];
      assert r[1..] == RemovedAt(s[1..], i - 1);
      RemovedAtIsSubsequence(s[1..], i - 1);
    }
  }

  lemma {:induction false} OptimizeFromIsSubsequence(ops: VectorOps, s: Polygon, i: nat, previous: IntPoint)
    requires i <= |s|
    ensures IsSubsequence(OptimizeFrom(ops, s, i, previous), s)
    decreases |s| - i
  {
    if i == |s| {
      SubsequenceOfItself(s);
    } else {
      var current := s[i];
      var next := if i < |s| - 1 then s[i + 1] else s[0];
      if TooClose(ops, previous, current) || DoublesBack(ops, previous, current, next) {
        OptimizeFromIsSubsequence(ops, RemovedAt(s, i), i, previous);
        RemovedAtIsSubsequence(s, i);
        SubsequenceTransitive(OptimizeFrom(ops, s, i, previous), RemovedAt(s, i), s);
      } else {
        OptimizeFromIsSubsequence(ops, s, i + 1, current);
      }
    }
  }

  /** No two consecutive vertices of `s[..k]` are too close, and the first is not too close to `start`. */
  ghost predicate SpacedFrom(ops: VectorOps, s: Polygon, k: nat, start: IntPoint)
    requires k <= |s|
  {
    (k > 0 ==> !TooClose(ops, start, s[0]))
    && forall j :: 0 < j < k ==> !TooClose(ops, s[j - 1], s[j])
  }

  lemma {:induction false} OptimizeFromSpaced(ops: VectorOps, s: Polygon, i: nat, previous: IntPoint, start: IntPoint)
    requires i <= |s| && SpacedFrom(ops, s, i, start)
    requires i == 0 ==> previous == start
    requires i > 0 ==> previous == s[i - 1]
    ensures var r := OptimizeFrom(ops, s, i, previous); SpacedFrom(ops, r, |r|, start)
    decreases |s| - i
  {
    if i < |s| {
      var current := s[i];
      var next := if i < |s| - 1 then s[i + 1] else s[0];
      if TooClose(ops, previous, current) || DoublesBack(ops, previous, current, next) {
        var t := RemovedAt(s, i);
        assert t[..i] == s[..i];
        assert SpacedFrom(ops, t, i, start);
        OptimizeFromSpaced(ops, t, i, previous, start);
      } else {
        assert SpacedFrom(ops, s, i + 1, start);
        OptimizeFromSpaced(ops, s, i + 1, current, start);
      }
    }
  }

  /**
   * OptimizePolygon only ever deletes vertices, and what it keeps has no two
   * consecutive vertices within 10 units of each other (the first is also clear
   * of the polygon's original last vertex).
   */
  lemma OptimizedIsSpacedSubsequence(ops: VectorOps, s: Polygon)
    requires |s| > 0
    ensures IsSubsequence(Optimized(ops, s), s)
    ensures |Optimized(ops, s)| <= |s|
    ensures var r := Optimized(ops, s); SpacedFrom(ops, r, |r|, s[|s| - 1])
  {
    OptimizeFromIsSubsequence(ops, s, 0, s[|s| - 1]);
    OptimizeFromSpaced(ops, s, 0, s[|s| - 1], s[|s| - 1]);
  }

  // ---------------------------------------------------------------------------
  // Ordering
  // ---------------------------------------------------------------------------

  /** C#'s `long.CompareTo`. */
  function CompareTo(x: int, y: int): (r: int)
    ensures r == -1 || r == 0 || r == 1
    ensures r < 0 <==> x < y
    ensures r == 0 <==> x == y
  {
    if x < y then -1 else if x > y then 1 else 0
  }

  /** IntPointSorterYX.Compare: orders points by Y, and by X where the Y are equal. */
  function CompareYX(a: IntPoint, b: IntPoint): (r: int)
    ensures r == -1 || r == 0 || r == 1
    ensures r < 0 <==> a.Y < b.Y || (a.Y == b.Y && a.X < b.X)
    ensures r == 0 <==> a == b
  {
    if a.Y == b.Y then CompareTo(a.X, b.X) else CompareTo(a.Y, b.Y)
  }

  /** Swapping the arguments flips the sign. */
  lemma CompareYXAntisymmetric(a: IntPoint, b: IntPoint)
    ensures CompareYX(a, b) == -CompareYX(b, a)
  {
  }

  /** The comparison is a total order, so sorting with it is well defined. */
  lemma CompareYXTransitive(a: IntPoint, b: IntPoint, c: IntPoint)
    requires CompareYX(a, b) <= 0 && CompareYX(b, c) <= 0
    ensures CompareYX(a, c) <= 0
  {
  }

  // ---------------------------------------------------------------------------
  // Axis-aligned bounding box
  // ---------------------------------------------------------------------------

  /** Point `j` of polygon `a` comes before point `j0` of polygon `i0` in reading order. */
  ghost predicate SeenBefore(polys: Polygons, i0: int, j0: int, a: int, b: int)
  {
    0 <= a < |polys| && 0 <= b < |polys[a]| && (a < i0 || (a == i0 && b < j0))
  }

  ghost predicate HasPoint(polys: Polygons)
  {
    exists a :: 0 <= a < |polys| && |polys[a]| > 0
  }

  class Aabb {
    var min: IntPoint
    var max: IntPoint

    constructor ()
      ensures min == IntPoint(LongMin, LongMin) && max == IntPoint(LongMin, LongMin)
    {
      min := IntPoint(LongMin, LongMin);
      max := IntPoint(LongMin, LongMin);
    }

    constructor FromPolygons(polys: Polygons)
      ensures Bounds(polys) && Tight(polys)
      ensures !HasPoint(polys) ==> min == IntPoint(LongMax, LongMax) && max == IntPoint(LongMin, LongMin)
    {
      min := IntPoint(LongMin, LongMin);
      max := IntPoint(LongMin, LongMin);
      new;
      Calculate(polys);
    }

    /** Every point read before (`i0`, `j0`) lies in the box. */
    ghost predicate BoundsBefore(polys: Polygons, i0: int, j0: int)
      reads this
    {
      forall a, b :: SeenBefore(polys, i0, j0, a, b) ==>
        min.X <= polys[a][b].X <= max.X && min.Y <= polys[a][b].Y <= max.Y
    }

    /** Each side of the box touches a point read before (`i0`, `j0`), if there is one; otherwise the box is the empty sentinel. */
    ghost predicate TightBefore(polys: Polygons, i0: int, j0: int)
      reads this
    {
      if exists a, b :: SeenBefore(polys, i0, j0, a, b) then
        (exists a, b :: SeenBefore(polys, i0, j0, a, b) && min.X == polys[a][b].X)
        && (exists a, b :: SeenBefore(polys, i0, j0, a, b) && min.Y == polys[a][b].Y)
        && (exists a, b :: SeenBefore(polys, i0, j0, a, b) && max.X == polys[a][b].X)
        && (exists a, b :: SeenBefore(polys, i0, j0, a, b) && max.Y == polys[a][b].Y)
      else
        min == IntPoint(LongMax, LongMax) && max == IntPoint(LongMin, LongMin)
    }

    /** Every point of `polys` lies in the box. */
    ghost predicate Bounds(polys: Polygons)
      reads this
    {
      BoundsBefore(polys, |polys|, 0)
    }

    /** Each side of the box touches a point of `polys`. */
    ghost predicate Tight(polys: Polygons)
      reads this
    {
      TightBefore(polys, |polys|, 0)
    }

    lemma AllSeen(polys: Polygons)
      ensures forall a, b :: SeenBefore(polys, |polys|, 0, a, b) <==> 0 <= a < |polys| && 0 <= b < |polys[a]|
      ensures HasPoint(polys) <==> exists a, b :: SeenBefore(polys, |polys|, 0, a, b)
    {
      if HasPoint(polys) {
        var a :| 0 <= a < |polys| && |polys[a]| > 0;
        assert SeenBefore(polys, |polys|, 0, a, 0);
      }
    }

    /** The smallest box holding every point; with no points, min is (Max, Max) and max is (Min, Min). */
    method Calculate(polys: Polygons)
      modifies this
      ensures Bounds(polys) && Tight(polys)
      ensures !HasPoint(polys) ==> min == IntPoint(LongMax, LongMax) && max == IntPoint(LongMin, LongMin)
    {
      min := IntPoint(LongMax, LongMax);
      max := IntPoint(LongMin, LongMin);
      for i := 0 to |polys|
        invariant BoundsBefore(polys, i, 0) && TightBefore(polys, i, 0)
      {
        for j := 0 to |polys[i]|
          invariant BoundsBefore(polys, i, j) && TightBefore(polys, i, j)
        {
          AddPointStep(polys, i, j);
        }
        assert forall a, b :: SeenBefore(polys, i, |polys[i]|, a, b) <==> SeenBefore(polys, i + 1, 0, a, b);
      }
      AllSeen(polys);
    }

    /** Taking in point `j` of polygon `i` keeps the box bounding and tight over everything read so far. */
    method AddPointStep(polys: Polygons, i: nat, j: nat)
      requires i < |polys| && j < |polys[i]|
      requires BoundsBefore(polys, i, j) && TightBefore(polys, i, j)
      modifies this
      ensures BoundsBefore(polys, i, j + 1) && TightBefore(polys, i, j + 1)
    {
      forall a, b
        ensures SeenBefore(polys, i, j + 1, a, b) <==> SeenBefore(polys, i, j, a, b) || (a == i && b == j)
      {
      }
      assert SeenBefore(polys, i, j + 1, i, j);
      AddPoint(polys[i][j]);
    }

    /** One step of Calculate's inner loop: widen the box to take in `p`. */
    method AddPoint(p: IntPoint)
      modifies this
      ensures min == IntPoint(if old(min.X) > p.X then p.X else old(min.X), if old(min.Y) > p.Y then p.Y else old(min.Y))
      ensures max == IntPoint(if old(max.X) < p.X then p.X else old(max.X), if old(max.Y) < p.Y then p.Y else old(max.Y))
    {
      if min.X > p.X { min := min.(X := p.X); }
      if min.Y > p.Y { min := min.(Y := p.Y); }
      if max.X < p.X { max := max.(X := p.X); }
      if max.Y < p.Y { max := max.(Y := p.Y); }
    }

    /** The boxes overlap (touching counts). */
    predicate Hit(other: Aabb)
      reads this, other
    {
      if max.X < other.min.X then false
      else if min.X > other.max.X then false
      else if max.Y < other.min.Y then false
      else if min.Y > other.max.Y then false
      else true
    }

    predicate Contains(p: IntPoint)
      reads this
    {
      min.X <= p.X <= max.X && min.Y <= p.Y <= max.Y
    }
  }

  lemma HitSymmetric(a: Aabb, b: Aabb)
    ensures a.Hit(b) <==> b.Hit(a)
  {
  }

  /** Two non-inverted boxes hit exactly when some point lies in both. */
  lemma HitIffSharedPoint(a: Aabb, b: Aabb)
    requires a.min.X <= a.max.X && a.min.Y <= a.max.Y
    requires b.min.X <= b.max.X && b.min.Y <= b.max.Y
    ensures a.Hit(b) <==> exists p :: a.Contains(p) && b.Contains(p)
  {
    if a.Hit(b) {
      var x := if a.min.X < b.min.X then b.min.X else a.min.X;
      var y := if a.min.Y < b.min.Y then b.min.Y else a.min.Y;
      assert a.Contains(IntPoint(x, y)) && b.Contains(IntPoint(x, y));
    }
  }
}
