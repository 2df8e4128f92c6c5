/**
 * Corner smoothing (`smooth_polygon`): every vertex V of a polygon's ring,
 * with predecessor P and successor N taken cyclically by `mod`, is replaced
 * by eight samples of the Bezier curve from S to E with control point V,
 * where S and E sit on the two adjacent sides at a blend rate
 * `min(0.5, min_length / shorter side)`. A geometry that is not a single
 * Polygon is returned unchanged.
 */
module Smoothing {
  import opened Geometry
  import opened Curves

  /** `mod(i, module)`. */
  function Mod(i: int, m: int): (r: int)
    requires m != 0
    ensures m > 0 ==> 0 <= r < m
    ensures m < 0 ==> m < r <= 0
    ensures (i - r) % m == 0
  {
    PyMod(i, m)
  }

  /** The cyclic neighbours `mod` selects: the predecessor of 0 is the last vertex, the successor of the last is 0. */
  lemma NeighbourIndices(n: nat, i: nat)
    requires i < n
    ensures Mod(n + i - 1, n) == if i == 0 then n - 1 else i - 1
    ensures Mod(n + i + 1, n) == if i == n - 1 then 0 else i + 1
  {
    if i == 0 {
      assert n + i - 1 == n - 1;
    } else {
      assert n + i - 1 == n + (i - 1);
      assert (n + (i - 1)) % n == i - 1;
    }
    if i == n - 1 {
      assert n + i + 1 == n + n;
      assert (n + n) % n == 0;
    } else {
      assert (n + (i + 1)) % n == i + 1;
    }
  }

  /** The previous, current and next vertex of corner i. */
  datatype Corner = Corner(last: Point, vertex: Point, next: Point)

  function CornerAt(coords: seq<Point>, i: nat): Corner
    requires i < |coords|
  {
    var n := |coords|;
    Corner(coords[Mod(n + i - 1, n)], coords[i], coords[Mod(n + i + 1, n)])
  }

  /** Python's `min(a, b)`: a unless b is strictly smaller. */
  function Min(a: real, b: real): (m: real)
    ensures m <= a && m <= b && (m == a || m == b)
  {
    if b < a then b else a
  }

  /** The shorter of the two sides at the corner. */
  function Shorter(dist: (Point, Point) -> real, c: Corner): real {
    Min(dist(c.next, c.vertex), dist(c.last, c.vertex))
  }

  /** `min(0.5, min_length / min_side_length)`; a zero side raises ZeroDivisionError. */
  function Rate(minLength: real, shorter: real): Result<real> {
    if shorter == 0.0 then Err(ZeroLengthSide) else Ok(Min(0.5, minLength / shorter))
  }

  /** The blend rate·p + (1 - rate)·v. */
  function Blend(rate: real, p: Point, v: Point): Point {
    Point(rate * p.x + (1.0 - rate) * v.x, rate * p.y + (1.0 - rate) * v.y)
  }

  /** The eight Bezier samples that smooth one corner at a given rate. */
  function CornerCurve(c: Corner, rate: real): (points: seq<Point>)
    ensures |points| == 8
  {
    var s := Blend(rate, c.last, c.vertex);
    var e := Blend(rate, c.next, c.vertex);
    seq(8, j requires 0 <= j < 8 => BezierPoint(s, c.vertex, e, j as real / 8.0))
  }

  /** Eight samples of the corner's Bezier curve, listed one by one, are its CornerCurve. */
  lemma CornerCurveOf(c: Corner, rate: real, curve: seq<Point>)
    requires |curve| == 8
    requires forall j :: 0 <= j < 8 ==>
      var s := Blend(rate, c.last, c.vertex);
      var e := Blend(rate, c.next, c.vertex);
      curve[j] == BezierPoint(Coordinates(Tuple(s.x, s.y)), Coordinates(Tuple(c.vertex.x, c.vertex.y)),
                              Coordinates(Tuple(e.x, e.y)), j as real / 8.0)
    ensures curve == CornerCurve(c, rate)
  {
  }

  /** The eight points that smooth corner i, or the failure of its zero shorter side. */
  function CornerStep(dist: (Point, Point) -> real, coords: seq<Point>, minLength: real, i: nat): Result<seq<Point>>
    requires i < |coords|
  {
    var c := CornerAt(coords, i);
    match Rate(minLength, Shorter(dist, c))
    case Err(f) => Err(f)
    case Ok(rate) => Ok(CornerCurve(c, rate))
  }

  /** The smoothed points of corners 0..m-1, or the failure of the first corner whose shorter side is zero. */
  function Blocks(dist: (Point, Point) -> real, coords: seq<Point>, minLength: real, m: nat): Result<seq<Point>>
    requires m <= |coords|
  {
    if m == 0 then Ok([])
    else
      match Blocks(dist, coords, minLength, m - 1)
      case Err(f) => Err(f)
      case Ok(prev) =>
        match CornerStep(dist, coords, minLength, m - 1)
        case Err(f) => Err(f)
        case Ok(block) => Ok(prev + block)
  }

  /** The ring coordinates that are smoothed: the closing repeat is dropped when `multiple_start`. */
  function SmoothedCoords(ring: seq<Point>, multipleStart: bool): seq<Point> {
    if multipleStart then (if |ring| == 0 then [] else ring[..|ring| - 1]) else ring
  }

  /** `smooth_polygon(polygon, min_length, multiple_start)`. */
  function Smoothed(k: Kernel, g: Region, minLength: real, multipleStart: bool): Result<Region> {
    if k.kind(g) != PolygonKind then Ok(g)
    else
      var coords := SmoothedCoords(k.ring(g), multipleStart);
      match Blocks(k.pointDistance, coords, minLength, |coords|)
      case Err(f) => Err(f)
      case Ok(points) => Ok(k.polygon(points))
  }

  /**
   * The blend rate lies in [0, 0.5] for a non-negative minimum length; it is
   * exactly 0.5 when the shorter side is at most twice the minimum length,
   * and min_length / shorter side otherwise.
   */
  lemma RateSpec(minLength: real, shorter: real)
    requires shorter > 0.0
    ensures Rate(minLength, shorter).Ok?
    ensures minLength >= 0.0 ==> 0.0 <= Rate(minLength, shorter).value <= 0.5
    ensures Rate(minLength, shorter).value == 0.5 <==> shorter <= 2.0 * minLength
    ensures shorter > 2.0 * minLength ==> Rate(minLength, shorter).value == minLength / shorter
  {
    if shorter <= 2.0 * minLength {
      assert minLength / shorter >= 0.5;
    } else {
      assert minLength / shorter < 0.5;
    }
  }

  /** Each block starts at S = rate·P + (1 - rate)·V, the Bezier value at t = 0. */
  lemma CurveStart(c: Corner, rate: real)
    ensures CornerCurve(c, rate)[0] == Blend(rate, c.last, c.vertex)
  {
    var s := Blend(rate, c.last, c.vertex);
    var e := Blend(rate, c.next, c.vertex);
    BcEnds(s.x, c.vertex.x, e.x);
    BcEnds(s.y, c.vertex.y, e.y);
  }

  /** Smoothing succeeds exactly when no corner has a zero shorter side, and then yields 8 points per corner. */
  lemma {:induction false} BlocksSpec(dist: (Point, Point) -> real, coords: seq<Point>, minLength: real, m: nat)
    requires m <= |coords|
    ensures Blocks(dist, coords, minLength, m).Err? <==>
      exists i :: 0 <= i < m && Shorter(dist, CornerAt(coords, i)) == 0.0
    ensures Blocks(dist, coords, minLength, m).Err? ==> Blocks(dist, coords, minLength, m).failure == ZeroLengthSide
    ensures Blocks(dist, coords, minLength, m).Ok? ==> |Blocks(dist, coords, minLength, m).value| == 8 * m
  {
    if m > 0 {
      BlocksSpec(dist, coords, minLength, m - 1);
    }
  }

  /**
   * Sample j of block i is the Bezier point at t = j/8 from S to E through
   * the vertex, with S and E blended at that corner's rate.
   */
  lemma {:induction false} BlocksSamples(dist: (Point, Point) -> real, coords: seq<Point>, minLength: real, m: nat, i: nat, j: nat)
    requires m <= |coords| && i < m && j < 8
    requires Blocks(dist, coords, minLength, m).Ok?
    ensures Rate(minLength, Shorter(dist, CornerAt(coords, i))).Ok?
    ensures |Blocks(dist, coords, minLength, m).value| == 8 * m
    ensures Blocks(dist, coords, minLength, m).value[8 * i + j] ==
      CornerCurve(CornerAt(coords, i), Rate(minLength, Shorter(dist, CornerAt(coords, i))).value)[j]
  {
    BlocksSpec(dist, coords, minLength, m);
    BlocksSpec(dist, coords, minLength, m - 1);
    var prev := Blocks(dist, coords, minLength, m - 1).value;
    if i < m - 1 {
      BlocksSamples(dist, coords, minLength, m - 1, i, j);
      assert 8 * i + j < |prev|;
    } else {
      assert 8 * i + j == |prev| + j;
    }
  }

  /**
   * A geometry that is not a Polygon is returned unchanged; a Polygon yields
   * the polygon of 8 points per smoothed corner, or fails exactly when some
   * corner has a zero-length shorter side.
   */
  lemma SmoothedSpec(k: Kernel, g: Region, minLength: real, multipleStart: bool)
    ensures k.kind(g) != PolygonKind ==> Smoothed(k, g, minLength, multipleStart) == Ok(g)
    ensures k.kind(g) == PolygonKind ==>
      var coords := SmoothedCoords(k.ring(g), multipleStart);
      && (Smoothed(k, g, minLength, multipleStart).Err? <==>
            exists i :: 0 <= i < |coords| && Shorter(k.pointDistance, CornerAt(coords, i)) == 0.0)
      && (Smoothed(k, g, minLength, multipleStart).Ok? ==>
            exists points :: |points| == 8 * |coords| && Smoothed(k, g, minLength, multipleStart) == Ok(k.polygon(points)))
  {
    if k.kind(g) == PolygonKind {
      var coords := SmoothedCoords(k.ring(g), multipleStart);
      BlocksSpec(k.pointDistance, coords, minLength, |coords|);
    }
  }

  /** `smooth_polygon(polygon, min_length, multiple_start)`; the loop stops at the first failing corner. */
  method SmoothPolygon(k: Kernel, polygon: Region, minLength: real, multipleStart: bool) returns (result: Result<Region>)
    ensures result == Smoothed(k, polygon, minLength, multipleStart)
  {
    if k.kind(polygon) != PolygonKind {
      return Ok(polygon);
    }
    var coords := k.ring(polygon);
    if multipleStart {
      coords := if |coords| == 0 then [] else coords[..|coords| - 1];
    }
    assert coords == SmoothedCoords(k.ring(polygon), multipleStart);
    var tupleList := [];
    var n := |coords|;
    var i := 0;
    while i < n
      invariant 0 <= i <= n
      invariant Blocks(k.pointDistance, coords, minLength, i) == Ok(tupleList)
    {
      var curve := SmoothCorner(k.pointDistance, coords, minLength, i);
      if curve.Err? {
        assert Blocks(k.pointDistance, coords, minLength, i + 1) == Err(curve.failure);
        BlocksFail(k.pointDistance, coords, minLength, i + 1, n);
        return Err(curve.failure);
      }
      assert Blocks(k.pointDistance, coords, minLength, i + 1) == Ok(tupleList + curve.value);
      tupleList := tupleList + curve.value;
      i := i + 1;
    }
    return Ok(k.polygon(tupleList));
  }

  /** The body of the corner loop of `smooth_polygon`: the eight points for corner i. */
  method SmoothCorner(dist: (Point, Point) -> real, coords: seq<Point>, minLength: real, i: nat) returns (curve: Result<seq<Point>>)
    requires i < |coords|
    ensures curve == CornerStep(dist, coords, minLength, i)
  {
    var n := |coords|;
    var lastCoord := coords[Mod(n + i - 1, n)];
    var thisCoord := coords[i];
    var nextCoord := coords[Mod(n + i + 1, n)];
    var minSideLength := Min(dist(nextCoord, thisCoord), dist(lastCoord, thisCoord));
    if minSideLength == 0.0 {
      return Err(ZeroLengthSide);
    }
    var rate := Min(0.5, minLength / minSideLength);
    var sPoint := Blend(rate, lastCoord, thisCoord);
    var ePoint := Blend(rate, nextCoord, thisCoord);
    var points := BasicCurve(Tuple(sPoint.x, sPoint.y), Tuple(thisCoord.x, thisCoord.y), Tuple(ePoint.x, ePoint.y));
    CornerCurveOf(Corner(lastCoord, thisCoord, nextCoord), rate, points);
    return Ok(points);
  }

  /** Once a prefix of the corners fails, every longer prefix fails the same way. */
  lemma {:induction false} BlocksFail(dist: (Point, Point) -> real, coords: seq<Point>, minLength: real, m: nat, m': nat)
    requires m <= m' <= |coords|
    requires Blocks(dist, coords, minLength, m).Err?
    ensures Blocks(dist, coords, minLength, m') == Blocks(dist, coords, minLength, m)
    decreases m' - m
  {
    if m' > m {
      BlocksFail(dist, coords, minLength, m, m' - 1);
    }
  }
}
