/**
 * The quadratic curves: `bc`, the Bezier polynomial behind `basic_curve`
 * and `util.get_curve`, and the corrected polynomial of
 * `curve_a_road.get_curve`, which adds a term that vanishes at both ends
 * and makes the curve pass through its middle control point at t = 1/2.
 * Each point argument may be a shapely Point or a coordinate tuple.
 */
module Curves {
  import opened Geometry

  /** A point argument: a shapely `Point` or an `(x, y)` tuple. */
  datatype PointArg = ShapelyPoint(p: Point) | Tuple(first: real, second: real)

  /** The coordinates the curve functions read from a point argument. */
  function Coordinates(arg: PointArg): Point {
    match arg
    case ShapelyPoint(p) => Point(p.x, p.y)
    case Tuple(a, b) => Point(a, b)
  }

  /** `bc(a, b, c, t)`: the quadratic Bezier polynomial with control values a, b, c. */
  function Bc(a: real, b: real, c: real, t: real): real {
    (1.0 - t) * (1.0 - t) * a + 2.0 * t * (1.0 - t) * b + t * t * c
  }

  /** The corrected `bc` of `curve_a_road.get_curve`. */
  function CorrectedBc(a: real, b: real, c: real, t: real): real {
    Bc(a, b, c, t) + 4.0 * (1.0 / 4.0 - (t - 1.0 / 2.0) * (t - 1.0 / 2.0)) * (-1.0 / 4.0 * a + b / 2.0 - 1.0 / 4.0 * c)
  }

  /** The Bezier point at t, each coordinate by the same `bc`. */
  function BezierPoint(a: Point, b: Point, c: Point, t: real): Point {
    Point(Bc(a.x, b.x, c.x, t), Bc(a.y, b.y, c.y, t))
  }

  /** The corrected curve's point at t. */
  function CorrectedPoint(a: Point, b: Point, c: Point, t: real): Point {
    Point(CorrectedBc(a.x, b.x, c.x, t), CorrectedBc(a.y, b.y, c.y, t))
  }

  /** The Bezier weights sum to one, so equal control values give that value back. */
  lemma BcWeights(a: real, b: real, c: real, t: real)
    ensures (1.0 - t) * (1.0 - t) + 2.0 * t * (1.0 - t) + t * t == 1.0
    ensures a == b == c ==> Bc(a, b, c, t) == a
  {
    assert (1.0 - t) * (1.0 - t) + 2.0 * t * (1.0 - t) + t * t == 1.0;
  }

  /** The Bezier curve starts at its first and ends at its last control value. */
  lemma BcEnds(a: real, b: real, c: real)
    ensures Bc(a, b, c, 0.0) == a && Bc(a, b, c, 1.0) == c
  {
  }

  /** The corrected curve passes through a, b and c at t = 0, 1/2 and 1. */
  lemma CorrectedBcInterpolates(a: real, b: real, c: real)
    ensures CorrectedBc(a, b, c, 0.0) == a
    ensures CorrectedBc(a, b, c, 1.0 / 2.0) == b
    ensures CorrectedBc(a, b, c, 1.0) == c
  {
    assert Bc(a, b, c, 1.0 / 2.0) == a / 4.0 + b / 2.0 + c / 4.0;
  }

  /** `basic_curve(A, B, C)`: the Bezier points at t = i/8 for i = 0..7. */
  method BasicCurve(pointA: PointArg, pointB: PointArg, pointC: PointArg) returns (points: seq<Point>)
    ensures |points| == 8
    ensures forall i :: 0 <= i < 8 ==>
      points[i] == BezierPoint(Coordinates(pointA), Coordinates(pointB), Coordinates(pointC), i as real / 8.0)
  {
    var a, b, c := Coordinates(pointA), Coordinates(pointB), Coordinates(pointC);
    points := [];
    for i := 0 to 8
      invariant |points| == i
      invariant forall j :: 0 <= j < i ==> points[j] == BezierPoint(a, b, c, j as real / 8.0)
    {
      var t := i as real / 8.0;
      var x := Bc(a.x, b.x, c.x, t);
      var y := Bc(a.y, b.y, c.y, t);
      points := points + [Point(x, y)];
    }
  }

  /** The points `util.get_curve` samples: the Bezier points at t = i/100 for i = 0..99. */
  function BezierSamples(a: Point, b: Point, c: Point): seq<Point> {
    seq(100, i requires 0 <= i < 100 => BezierPoint(a, b, c, i as real / 100.0))
  }

  /** The points `curve_a_road.get_curve` samples: the corrected points at t = i/100 for i = 0..100. */
  function CorrectedSamples(a: Point, b: Point, c: Point): seq<Point> {
    seq(101, i requires 0 <= i < 101 => CorrectedPoint(a, b, c, i as real / 100.0))
  }

  /**
   * `util.get_curve` takes 100 samples that start at A; the last is taken at
   * t = 0.99, not at t = 1, so C itself is not among them in general. Equal
   * control points give a curve that stays at that point.
   */
  lemma BezierSamplesSpec(a: Point, b: Point, c: Point)
    ensures |BezierSamples(a, b, c)| == 100
    ensures BezierSamples(a, b, c)[0] == a
    ensures BezierSamples(a, b, c)[99] == BezierPoint(a, b, c, 0.99)
    ensures a == b == c ==> forall i :: 0 <= i < 100 ==> BezierSamples(a, b, c)[i] == a
  {
    BcEnds(a.x, b.x, c.x);
    BcEnds(a.y, b.y, c.y);
    assert 99 as real / 100.0 == 0.99;
    if a == b == c {
      forall i | 0 <= i < 100 ensures BezierSamples(a, b, c)[i] == a {
        BcWeights(a.x, b.x, c.x, i as real / 100.0);
        BcWeights(a.y, b.y, c.y, i as real / 100.0);
      }
    }
  }

  /** `curve_a_road.get_curve` takes 101 samples: sample 0 is A, sample 50 is B and sample 100 is C. */
  lemma CorrectedSamplesSpec(a: Point, b: Point, c: Point)
    ensures |CorrectedSamples(a, b, c)| == 101
    ensures CorrectedSamples(a, b, c)[0] == a
    ensures CorrectedSamples(a, b, c)[50] == b
    ensures CorrectedSamples(a, b, c)[100] == c
  {
    CorrectedBcInterpolates(a.x, b.x, c.x);
    CorrectedBcInterpolates(a.y, b.y, c.y);
    assert 50 as real / 100.0 == 1.0 / 2.0;
    assert 100 as real / 100.0 == 1.0;
  }

  /** `util.get_curve(A, B, C)`: the LineString through its samples. */
  method GetBezierCurve(k: Kernel, pointA: PointArg, pointB: PointArg, pointC: PointArg) returns (curve: Region)
    ensures curve == k.lineString(BezierSamples(Coordinates(pointA), Coordinates(pointB), Coordinates(pointC)))
  {
    var a, b, c := Coordinates(pointA), Coordinates(pointB), Coordinates(pointC);
    var pointList := [];
    for i := 0 to 100
      invariant pointList == BezierSamples(a, b, c)[..i]
    {
      var t := i as real / 100.0;
      pointList := pointList + [Point(Bc(a.x, b.x, c.x, t), Bc(a.y, b.y, c.y, t))];
    }
    assert pointList == BezierSamples(a, b, c);
    curve := k.lineString(pointList);
  }

  /** `curve_a_road.get_curve(A, B, C)`: the LineString through its corrected samples. */
  method GetCurve(k: Kernel, pointA: PointArg, pointB: PointArg, pointC: PointArg) returns (curve: Region)
    ensures curve == k.lineString(CorrectedSamples(Coordinates(pointA), Coordinates(pointB), Coordinates(pointC)))
  {
    var a, b, c := Coordinates(pointA), Coordinates(pointB), Coordinates(pointC);
    var pointList := [];
    for i := 0 to 101
      invariant pointList == CorrectedSamples(a, b, c)[..i]
    {
      var t := i as real / 100.0;
      pointList := pointList + [Point(CorrectedBc(a.x, b.x, c.x, t), CorrectedBc(a.y, b.y, c.y, t))];
    }
    assert pointList == CorrectedSamples(a, b, c);
    curve := k.lineString(pointList);
  }

  /**
   * The coordinates are computed independently: the x of every corrected
   * sample depends only on the three x inputs, and the y only on the y inputs.
   */
  lemma CoordinatesIndependent(a: Point, b: Point, c: Point, a': Point, b': Point, c': Point, t: real)
    ensures a.x == a'.x && b.x == b'.x && c.x == c'.x ==> CorrectedPoint(a, b, c, t).x == CorrectedPoint(a', b', c', t).x
    ensures a.y == a'.y && b.y == b'.y && c.y == c'.y ==> CorrectedPoint(a, b, c, t).y == CorrectedPoint(a', b', c', t).y
  {
  }

  /** A shapely Point and the tuple of its coordinates are read identically. */
  lemma PointOrTuple(p: Point)
    ensures Coordinates(ShapelyPoint(p)) == Coordinates(Tuple(p.x, p.y)) == p
  {
  }
}
