/**
 * The planar geometry library the subdivision pipeline consumes, taken as a
 * parameter: a `Kernel` bundles the operations on regions of an abstract
 * type `Region` (polygons, multi-polygons, lines, discs) that the pipeline calls.
 * Nothing here reimplements them; the few set-theoretic facts the proofs
 * need are stated as ghost predicates on the kernel and required only by
 * the lemmas that use them.
 *
 * The module also holds the small numeric helpers that model Python's own
 * semantics (`int()` truncation, `%`, `random.choice`, `random.randint`)
 * and the failures a Python exception would signal.
 */
module Geometry {

  /** A coordinate pair; a shapely Point and a raw tuple both normalise to this. */
  datatype Point = Point(x: real, y: real)

  /** A shapely geometry, known only through the kernel operations. */
  type Region(!new)

  /** `geometry.bounds`: (minx, miny, maxx, maxy). */
  datatype Bounds = Bounds(minX: real, minY: real, maxX: real, maxY: real)

  /** The geometry classes the pipeline distinguishes with `isinstance`. */
  datatype Kind = PolygonKind | MultiPolygonKind | OtherKind

  datatype Option<+T> = None | Some(value: T)

  /** The Python exceptions the modelled code can raise. */
  datatype Failure =
    | NoBoundaryEdge   // `lines[0]` on an empty edge list (IndexError)
    | EmptyChoice      // `random.choice` on an empty range (IndexError)
    | EmptyRandRange   // `random.randint(a, b)` with a > b (ValueError)
    | ZeroLengthSide   // `min_length / 0` in the corner blend rate (ZeroDivisionError)
    | EmptyLotList     // `max([])` over the lot areas (ValueError)
    | ZeroMinArea      // `max(areas) / 0` for a lot of area zero (ZeroDivisionError)
    | ZeroBaseArea     // the coverage `... / base.area` on a base of area zero (ZeroDivisionError)

  datatype Result<+T> = Ok(value: T) | Err(failure: Failure)

  /**
   * The geometry library, one field per operation the pipeline uses.
   * `buffer` is `g.buffer(d)` (positive dilates, negative erodes), `disc` is
   * `point.buffer(r, resolution)`, `lineString` the LineString through a list of points,
   * `polygon` the Polygon built from a coordinate list, `ring` the
   * coordinate sequence of `g.boundary`, `parts` the pieces a multi-part
   * geometry iterates over, `pointDistance` / `regionDistance` the
   * `distance` method, `heading` is `degrees(atan2(dy, dx))`, and
   * `building` / `shadow` the rotated footprint and cast-shadow
   * constructors (`get_building`, `get_building_shadow`).
   */
  datatype Kernel = Kernel(
    empty: Region,
    union: (Region, Region) -> Region,
    difference: (Region, Region) -> Region,
    symDiff: (Region, Region) -> Region,
    buffer: (Region, real) -> Region,
    envelope: Region -> Region,
    bounds: Region -> Bounds,
    intersects: (Region, Region) -> bool,
    containsPoint: (Region, Point) -> bool,
    isEmpty: Region -> bool,
    kind: Region -> Kind,
    parts: Region -> seq<Region>,
    area: Region -> real,
    ring: Region -> seq<Point>,
    centroid: Region -> Point,
    pointDistance: (Point, Point) -> real,
    regionDistance: (Point, Region) -> real,
    disc: (Point, real, nat) -> Region,
    lineString: seq<Point> -> Region,
    polygon: seq<Point> -> Region,
    building: (real, real, real, Point) -> Region,
    shadow: (real, real, real, Point, real) -> Region,
    heading: (Point, Point) -> real,
    sqrt: real -> real
  )

  /**
   * Set-theoretic consistency of union and intersection: nothing meets the
   * empty geometry or an empty region, and a union meets exactly what one of
   * its operands meets.
   */
  ghost predicate UnionLaws(k: Kernel) {
    && (forall c: Region :: !k.intersects(k.empty, c))
    && (forall a, c :: k.isEmpty(a) ==> !k.intersects(a, c))
    && (forall a, b, c :: k.intersects(k.union(a, b), c) == (k.intersects(a, c) || k.intersects(b, c)))
  }

  /** The pieces of a multi-polygon are themselves non-empty. */
  ghost predicate PartsLaw(k: Kernel) {
    forall g, i :: k.kind(g) == MultiPolygonKind && 0 <= i < |k.parts(g)| ==> !k.isEmpty(k.parts(g)[i])
  }

  /** A non-empty region has a boundary with at least one coordinate. */
  ghost predicate RingLaw(k: Kernel) {
    forall g :: !k.isEmpty(g) ==> |k.ring(g)| > 0
  }

  /** `cascaded_union(rs)`: the union of all regions of the list. */
  function UnionAll(k: Kernel, rs: seq<Region>): Region {
    if rs == [] then k.empty else k.union(UnionAll(k, rs[..|rs| - 1]), rs[|rs| - 1])
  }

  /** A region meets a `cascaded_union` exactly when it meets one of its members. */
  lemma {:induction false} UnionAllIntersects(k: Kernel, rs: seq<Region>, c: Region)
    requires UnionLaws(k)
    ensures k.intersects(UnionAll(k, rs), c) <==> exists i :: 0 <= i < |rs| && k.intersects(rs[i], c)
  {
    if rs != [] {
      var init := rs[..|rs| - 1];
      UnionAllIntersects(k, init, c);
      if k.intersects(UnionAll(k, rs), c) {
        if !k.intersects(rs[|rs| - 1], c) {
          var i :| 0 <= i < |init| && k.intersects(init[i], c);
          assert rs[i] == init[i];
        }
      } else {
        forall i | 0 <= i < |rs| ensures !k.intersects(rs[i], c) {
          if i < |init| {
            assert rs[i] == init[i];
          }
        }
      }
    }
  }

  /** The centroid of the segment from a to b, which is its midpoint. */
  function Midpoint(a: Point, b: Point): (m: Point)
    ensures m.x - a.x == b.x - m.x && m.y - a.y == b.y - m.y
  {
    Point((a.x + b.x) / 2.0, (a.y + b.y) / 2.0)
  }

  /** Python's `int(x)` on a float: truncation toward zero. */
  function Trunc(x: real): (n: int)
    ensures x >= 0.0 ==> 0 <= n && n as real <= x < n as real + 1.0
    ensures x < 0.0 ==> n <= 0 && n as real - 1.0 < x <= n as real
  {
    if x >= 0.0 then x.Floor else -((-x).Floor)
  }

  /** Python's `i % m`: the remainder takes the sign of the divisor. */
  function PyMod(i: int, m: int): (r: int)
    requires m != 0
    ensures m > 0 ==> 0 <= r < m
    ensures m < 0 ==> m < r <= 0
    ensures (0 <= i < m || m < i <= 0) ==> r == i
    ensures (i - r) % m == 0
  {
    if m > 0 then
      ResidueLaws(i, m);
      i % m
    else
      ResidueLaws(i, -m);
      if i % (-m) == 0 then 0
      else i % (-m) + m
  }

  /**
   * What is left after subtracting either remainder of i by d is a multiple
   * of d and of -d; i is its own remainder in [0, d), and i + d in (-d, 0).
   */
  lemma ResidueLaws(i: int, d: int)
    requires d > 0
    ensures 0 <= i % d < d
    ensures 0 <= i < d ==> i % d == i
    ensures -d < i < 0 ==> i % d == i + d
    ensures (i - i % d) % d == 0
    ensures (i - i % d) % (-d) == 0
    ensures (i - (i % d - d)) % (-d) == 0
  {
    if 0 <= i < d {
      ModUnique(i, d, 0, i);
    } else if -d < i < 0 {
      ModUnique(i, d, -1, i + d);
    }
    var q := i / d;
    assert i - i % d == d * q;
    MultipleMod(i - i % d, d, q);
    MultipleMod(i - i % d, -d, -q);
    assert i - (i % d - d) == d * q + d == (-d) * (-q - 1);
    MultipleMod(i - (i % d - d), -d, -q - 1);
  }

  /** Any quotient and remainder in [0, d) that rebuild x are Euclid's. */
  lemma ModUnique(x: int, d: int, q: int, r: int)
    requires d > 0 && 0 <= r < d && x == d * q + r
    ensures x % d == r
  {
    var t := q - x / d;
    assert d * t == x % d - r by {
      assert x == d * (x / d) + x % d;
      assert d * q - d * (x / d) == d * t;
    }
    if t > 0 {
      ProductAtLeast(d, t);
    } else if t < 0 {
      assert d * -t == -(d * t);
      ProductAtLeast(d, -t);
    }
  }

  /** A multiple of `m` leaves no remainder. */
  lemma MultipleMod(x: int, m: int, q: int)
    requires m != 0 && x == m * q
    ensures x % m == 0
  {
    var p := x / m;
    var t := q - p;
    assert m * t == x % m by {
      assert x == m * p + x % m;
      assert m * q - m * p == m * t;
    }
    if t > 0 {
      assert (if m > 0 then m else -m) * t == (if m > 0 then m * t else -(m * t));
      ProductAtLeast(if m > 0 then m else -m, t);
    } else if t < 0 {
      assert (if m > 0 then m else -m) * -t == (if m > 0 then -(m * t) else m * t);
      ProductAtLeast(if m > 0 then m else -m, -t);
    }
  }

  lemma ProductAtLeast(a: int, t: int)
    requires a > 0 && t > 0
    ensures a * t >= a
  {
    assert a * t == a * (t - 1) + a;
    assert a * (t - 1) >= 0;
  }

  /** The random generator: the value of the n-th draw. */
  type Rng = nat -> nat

  /** `random.choice` / `randbelow(bound)`: an index drawn from [0, bound). */
  function Draw(rng: Rng, cursor: nat, bound: nat): (i: nat)
    requires bound > 0
    ensures i < bound
  {
    rng(cursor) % bound
  }

  /** `random.randint(lo, hi)`: an integer drawn from [lo, hi]. */
  function RandInt(rng: Rng, cursor: nat, lo: int, hi: int): (r: int)
    requires lo <= hi
    ensures lo <= r <= hi
  {
    lo + rng(cursor) % (hi - lo + 1)
  }
}
