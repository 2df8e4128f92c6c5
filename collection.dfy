/**
 * The circle packing `generate_collection` performs: a density x density
 * grid over the base's envelope, kept where the base eroded by 15 contains
 * the grid point, then at most 200 rounds that each draw a candidate and
 * either drop it, leave it for later, or grow a circle around it that just
 * reaches the nearest circle already placed (radius d + 1, so the two
 * overlap by 1). The collection starts as a copy of the seed circles.
 */
module Collection {
  import opened Geometry

  const MaxIteration: nat := 200
  /** The erosion that keeps candidates away from the base's boundary. */
  const Clearance: real := 15.0

  /** Grid point (i, j): `Point(minx + x_diff / density * i, miny + y_diff / density * j)`. */
  function GridPoint(b: Bounds, density: nat, i: nat, j: nat): Point
    requires density > 0
  {
    Point(b.minX + (b.maxX - b.minX) / density as real * i as real,
          b.minY + (b.maxY - b.minY) / density as real * j as real)
  }

  /** The kept points among the first m columns of row j of `grid`. */
  function RowCandidates(k: Kernel, inner: Region, grid: (nat, nat) -> Point, j: nat, m: nat): seq<Point> {
    if m == 0 then []
    else
      var p := grid(m - 1, j);
      RowCandidates(k, inner, grid, j, m - 1) + (if k.containsPoint(inner, p) then [p] else [])
  }

  /** The kept points of the first m rows, row by row. */
  function GridRows(k: Kernel, inner: Region, grid: (nat, nat) -> Point, density: nat, m: nat): seq<Point> {
    if m == 0 then [] else GridRows(k, inner, grid, density, m - 1) + RowCandidates(k, inner, grid, m - 1, density)
  }

  /** The grid over the base's envelope. */
  function BaseGrid(k: Kernel, base: Region, density: nat): (nat, nat) -> Point
    requires density > 0
  {
    var b := k.bounds(k.envelope(base));
    (i: nat, j: nat) => GridPoint(b, density, i, j)
  }

  /** The candidate list `point_list` before the growth loop. */
  function Candidates(k: Kernel, base: Region, density: nat): seq<Point> {
    if density == 0 then []
    else GridRows(k, k.buffer(base, -Clearance), BaseGrid(k, base, density), density, density)
  }

  /** p is one of the first m points of grid row j that the eroded base contains. */
  ghost predicate KeptRowPoint(k: Kernel, inner: Region, grid: (nat, nat) -> Point, j: nat, m: nat, p: Point) {
    exists i :: 0 <= i < m && p == grid(i, j) && k.containsPoint(inner, p)
  }

  lemma {:induction false} RowCandidatesSpec(k: Kernel, inner: Region, grid: (nat, nat) -> Point, j: nat, m: nat)
    ensures |RowCandidates(k, inner, grid, j, m)| <= m
    ensures forall p :: p in RowCandidates(k, inner, grid, j, m) <==> KeptRowPoint(k, inner, grid, j, m, p)
  {
    if m > 0 {
      RowCandidatesSpec(k, inner, grid, j, m - 1);
      forall p ensures KeptRowPoint(k, inner, grid, j, m, p) <==>
        KeptRowPoint(k, inner, grid, j, m - 1, p) || (p == grid(m - 1, j) && k.containsPoint(inner, p))
      {
        if KeptRowPoint(k, inner, grid, j, m - 1, p) {
          var i :| 0 <= i < m - 1 && p == grid(i, j) && k.containsPoint(inner, p);
          assert 0 <= i < m;
        }
      }
    }
  }

  lemma {:induction false} GridRowsSize(k: Kernel, inner: Region, grid: (nat, nat) -> Point, density: nat, m: nat)
    ensures |GridRows(k, inner, grid, density, m)| <= m * density
  {
    if m > 0 {
      GridRowsSize(k, inner, grid, density, m - 1);
      RowCandidatesSpec(k, inner, grid, m - 1, density);
      assert (m - 1) * density + density == m * density;
    }
  }

  /** p is a point of the first m rows of the grid that the eroded base contains. */
  ghost predicate KeptGridPoint(k: Kernel, inner: Region, grid: (nat, nat) -> Point, density: nat, m: nat, p: Point) {
    exists i, j :: 0 <= i < density && 0 <= j < m && p == grid(i, j) && k.containsPoint(inner, p)
  }

  lemma {:induction false} GridRowsMembers(k: Kernel, inner: Region, grid: (nat, nat) -> Point, density: nat, m: nat)
    ensures forall p :: p in GridRows(k, inner, grid, density, m) <==> KeptGridPoint(k, inner, grid, density, m, p)
  {
    if m > 0 {
      var prev := GridRows(k, inner, grid, density, m - 1);
      var row := RowCandidates(k, inner, grid, m - 1, density);
      assert GridRows(k, inner, grid, density, m) == prev + row;
      GridRowsMembers(k, inner, grid, density, m - 1);
      RowCandidatesSpec(k, inner, grid, m - 1, density);
      forall p ensures p in prev + row <==> KeptGridPoint(k, inner, grid, density, m, p) {
        KeptGridPointStep(k, inner, grid, density, m - 1, p);
      }
    }
  }

  /** A kept point of rows 0..r is a kept point of the rows below r or of row r. */
  lemma KeptGridPointStep(k: Kernel, inner: Region, grid: (nat, nat) -> Point, density: nat, r: nat, p: Point)
    ensures KeptGridPoint(k, inner, grid, density, r + 1, p) <==>
      KeptGridPoint(k, inner, grid, density, r, p) ||
      KeptRowPoint(k, inner, grid, r, density, p)
  {
    if KeptRowPoint(k, inner, grid, r, density, p) {
      var i :| 0 <= i < density && p == grid(i, r) && k.containsPoint(inner, p);
      assert 0 <= r < r + 1;
    }
    if KeptGridPoint(k, inner, grid, density, r, p) {
      var i, j :| 0 <= i < density && 0 <= j < r && p == grid(i, j) && k.containsPoint(inner, p);
      assert 0 <= j < r + 1;
    }
  }

  /**
   * There are at most density^2 candidates, and a point is a candidate exactly
   * when it is a grid point the eroded base contains.
   */
  lemma CandidatesSpec(k: Kernel, base: Region, density: nat)
    ensures |Candidates(k, base, density)| <= density * density
    ensures density > 0 ==> forall p :: p in Candidates(k, base, density) <==>
      exists i, j :: 0 <= i < density && 0 <= j < density &&
        p == GridPoint(k.bounds(k.envelope(base)), density, i, j) && k.containsPoint(k.buffer(base, -Clearance), p)
  {
    if density > 0 {
      var grid := BaseGrid(k, base, density);
      assert forall i: nat, j: nat :: grid(i, j) == GridPoint(k.bounds(k.envelope(base)), density, i, j);
      GridRowsSize(k, k.buffer(base, -Clearance), grid, density, density);
      GridRowsMembers(k, k.buffer(base, -Clearance), grid, density, density);
    }
  }

  /** The nested loops that fill `point_list`. */
  method GridCandidates(k: Kernel, base: Region, density: nat) returns (points: seq<Point>)
    ensures points == Candidates(k, base, density)
  {
    points := [];
    if density == 0 {
      return;
    }
    var b := k.bounds(k.envelope(base));
    ghost var inner := k.buffer(base, -Clearance);
    ghost var grid := BaseGrid(k, base, density);
    var j := 0;
    while j < density
      invariant 0 <= j <= density
      invariant points == GridRows(k, inner, grid, density, j)
    {
      ghost var before := points;
      var i := 0;
      while i < density
        invariant 0 <= i <= density
        invariant points == before + RowCandidates(k, inner, grid, j, i)
      {
        var point := Point(b.minX + (b.maxX - b.minX) / density as real * i as real,
                           b.minY + (b.maxY - b.minY) / density as real * j as real);
        assert point == grid(i, j);
        if k.containsPoint(k.buffer(base, -Clearance), point) {
          points := points + [point];
        }
        i := i + 1;
      }
      j := j + 1;
    }
  }

  /** `list.remove(p)`: deletes the first element equal to p. */
  function RemoveFirst(s: seq<Point>, p: Point): (r: seq<Point>)
    ensures p in s ==> |r| == |s| - 1
    ensures p !in s ==> r == s
    ensures multiset(r) == multiset(s) - multiset{p}
  {
    if s == [] then []
    else if s[0] == p then
      assert s == [s[0]] + s[1..];
      s[1..]
    else
      assert s == [s[0]] + s[1..];
      [s[0]] + RemoveFirst(s[1..], p)
  }

  /** `min(first_point.distance(circle) for circle in collection)`. */
  function MinDistance(k: Kernel, p: Point, circles: seq<Region>): (d: real)
    requires |circles| > 0
    ensures forall i :: 0 <= i < |circles| ==> d <= k.regionDistance(p, circles[i])
    ensures exists i :: 0 <= i < |circles| && d == k.regionDistance(p, circles[i])
  {
    if |circles| == 1 then k.regionDistance(p, circles[0])
    else
      var init := circles[..|circles| - 1];
      var m := MinDistance(k, p, init);
      var last := k.regionDistance(p, circles[|circles| - 1]);
      assert forall i :: 0 <= i < |init| ==> circles[i] == init[i];
      if last < m then last else m
  }

  /** The loop state: remaining candidates, circles so far, rounds done, and the random stream position. */
  datatype Growth = Growth(points: seq<Point>, collection: seq<Region>, iter: nat, cursor: nat)

  /** One round of the growth loop on a non-empty candidate list. */
  function GrowStep(k: Kernel, rng: Rng, minR: int, maxR: int, resolution: nat, g: Growth): (r: Result<Growth>)
    requires |g.points| > 0
    ensures r.Err? <==> |g.collection| == 0 && minR > maxR
    ensures r.Ok? ==> r.value.iter == g.iter + 1 && r.value.cursor > g.cursor
  {
    var p := g.points[Draw(rng, g.cursor, |g.points|)];
    if |g.collection| == 0 then
      if minR > maxR then Err(EmptyRandRange)
      else
        var radius := RandInt(rng, g.cursor + 1, minR, maxR);
        Ok(Growth(RemoveFirst(g.points, p), g.collection + [k.disc(p, Radius(radius), resolution)], g.iter + 1, g.cursor + 2))
    else
      var d := MinDistance(k, p, g.collection);
      if d < minR as real then Ok(Growth(RemoveFirst(g.points, p), g.collection, g.iter + 1, g.cursor + 1))
      else if d > maxR as real then Ok(Growth(g.points, g.collection, g.iter + 1, g.cursor + 1))
      else Ok(Growth(RemoveFirst(g.points, p), g.collection + [k.disc(p, d + 1.0, resolution)], g.iter + 1, g.cursor + 1))
  }

  /** The growth loop run from state g to its end: no candidates left, or 200 rounds done. */
  function Grow(k: Kernel, rng: Rng, minR: int, maxR: int, resolution: nat, g: Growth): Result<Growth>
    decreases MaxIteration - g.iter
  {
    if |g.points| == 0 || g.iter >= MaxIteration then Ok(g)
    else
      match GrowStep(k, rng, minR, maxR, resolution, g)
      case Err(f) => Err(f)
      case Ok(h) => Grow(k, rng, minR, maxR, resolution, h)
  }

  /** `generate_collection(base, min_r, max_r, density, resolution, seeds)` from random position `cursor`. */
  function CollectionRun(k: Kernel, rng: Rng, cursor: nat, base: Region, minR: int, maxR: int,
                         density: nat, resolution: nat, seeds: seq<Region>): Result<Growth>
  {
    Grow(k, rng, minR, maxR, resolution, Growth(Candidates(k, base, density), seeds, 0, cursor))
  }

  /** Circle `circle`, grown after `before`, comes from a candidate of `pool` by one of the two radius rules. */
  ghost predicate GrownCircle(k: Kernel, minR: int, maxR: int, resolution: nat, pool: seq<Point>, before: seq<Region>, circle: Region) {
    exists p :: p in pool &&
      if before == [] then
        exists r: int :: minR <= r <= maxR && circle == k.disc(p, Radius(r), resolution)
      else
        minR as real <= MinDistance(k, p, before) <= maxR as real &&
        circle == k.disc(p, MinDistance(k, p, before) + 1.0, resolution)
  }

  /** The integer radius `random.randint` draws, as a real. */
  function Radius(r: int): real {
    r as real
  }

  /** A circle grown from a pool stays grown from any larger pool. */
  lemma GrownFromLargerPool(k: Kernel, minR: int, maxR: int, resolution: nat,
                            pool: seq<Point>, larger: seq<Point>, before: seq<Region>, circle: Region)
    requires GrownCircle(k, minR, maxR, resolution, pool, before, circle)
    requires forall x :: x in pool ==> x in larger
    ensures GrownCircle(k, minR, maxR, resolution, larger, before, circle)
  {
    var p :| p in pool &&
      if before == [] then
        exists r: int :: minR <= r <= maxR && circle == k.disc(p, Radius(r), resolution)
      else
        minR as real <= MinDistance(k, p, before) <= maxR as real &&
        circle == k.disc(p, MinDistance(k, p, before) + 1.0, resolution);
    assert p in larger;
  }

  /**
   * What one round did with drawn point p, going from g to h: it removed
   * exactly p, adding at most one circle, grown by the radius rules; or, with
   * p farther than max_r from every circle, it changed neither list.
   */
  ghost predicate StepOutcome(k: Kernel, minR: int, maxR: int, resolution: nat, g: Growth, p: Point, h: Growth) {
    || (&& h.points == RemoveFirst(g.points, p)
        && (|| h.collection == g.collection
            || (&& |h.collection| == |g.collection| + 1
                && h.collection[..|g.collection|] == g.collection
                && GrownCircle(k, minR, maxR, resolution, g.points, g.collection, h.collection[|g.collection|]))))
    || (&& |g.collection| > 0 && MinDistance(k, p, g.collection) > maxR as real
        && h.points == g.points && h.collection == g.collection)
  }

  /** One round either removes exactly the drawn candidate or, when it is out of reach, changes nothing. */
  lemma StepEffect(k: Kernel, rng: Rng, minR: int, maxR: int, resolution: nat, g: Growth)
    requires |g.points| > 0 && GrowStep(k, rng, minR, maxR, resolution, g).Ok?
    ensures StepOutcome(k, minR, maxR, resolution, g, g.points[Draw(rng, g.cursor, |g.points|)],
                        GrowStep(k, rng, minR, maxR, resolution, g).value)
  {
    var h := GrowStep(k, rng, minR, maxR, resolution, g).value;
    var p := g.points[Draw(rng, g.cursor, |g.points|)];
    assert p in g.points;
    if |g.collection| == 0 {
      var r := RandInt(rng, g.cursor + 1, minR, maxR);
      var circle := k.disc(p, Radius(r), resolution);
      assert h.points == RemoveFirst(g.points, p) && h.collection == [circle];
      assert h.collection[..|g.collection|] == g.collection;
      assert GrownCircle(k, minR, maxR, resolution, g.points, g.collection, circle);
    } else {
      var d := MinDistance(k, p, g.collection);
      if minR as real <= d <= maxR as real {
        var circle := k.disc(p, d + 1.0, resolution);
        assert h.points == RemoveFirst(g.points, p) && h.collection == g.collection + [circle];
        assert h.collection[..|g.collection|] == g.collection;
        assert GrownCircle(k, minR, maxR, resolution, g.points, g.collection, circle);
      }
    }
  }

  /**
   * Which branch one round takes, by the distance d from the drawn point p
   * to the nearest circle. With no circles, p is removed and a disc of a
   * radius drawn from [min_r, max_r] is appended.
   */
  lemma StepSeeds(k: Kernel, rng: Rng, minR: int, maxR: int, resolution: nat, g: Growth, p: Point)
    requires |g.points| > 0 && p == g.points[Draw(rng, g.cursor, |g.points|)]
    requires |g.collection| == 0 && minR <= maxR
    ensures var h := GrowStep(k, rng, minR, maxR, resolution, g);
      var radius := RandInt(rng, g.cursor + 1, minR, maxR);
      && h.Ok? && minR <= radius <= maxR
      && |h.value.points| == |g.points| - 1
      && multiset(h.value.points) + multiset{p} == multiset(g.points)
      && h.value.collection == [k.disc(p, Radius(radius), resolution)]
      && h.value.cursor == g.cursor + 2
  {
    RemoveDrawn(g.points, p);
    var radius := RandInt(rng, g.cursor + 1, minR, maxR);
    var circle := k.disc(p, Radius(radius), resolution);
    assert g.collection + [circle] == [circle];
    assert GrowStep(k, rng, minR, maxR, resolution, g) ==
      Ok(Growth(RemoveFirst(g.points, p), g.collection + [circle], g.iter + 1, g.cursor + 2));
  }

  /** d < min_r: p is removed and no circle is added. */
  lemma StepTooClose(k: Kernel, rng: Rng, minR: int, maxR: int, resolution: nat, g: Growth, p: Point)
    requires |g.points| > 0 && p == g.points[Draw(rng, g.cursor, |g.points|)]
    requires |g.collection| > 0 && MinDistance(k, p, g.collection) < minR as real
    ensures var h := GrowStep(k, rng, minR, maxR, resolution, g);
      && h.Ok?
      && |h.value.points| == |g.points| - 1
      && multiset(h.value.points) + multiset{p} == multiset(g.points)
      && h.value.collection == g.collection
      && h.value.cursor == g.cursor + 1
  {
    RemoveDrawn(g.points, p);
    assert GrowStep(k, rng, minR, maxR, resolution, g) ==
      Ok(Growth(RemoveFirst(g.points, p), g.collection, g.iter + 1, g.cursor + 1));
  }

  /** min_r <= d <= max_r: p is removed and a disc of radius d + 1 is appended. */
  lemma StepGrows(k: Kernel, rng: Rng, minR: int, maxR: int, resolution: nat, g: Growth, p: Point)
    requires |g.points| > 0 && p == g.points[Draw(rng, g.cursor, |g.points|)]
    requires |g.collection| > 0 && minR as real <= MinDistance(k, p, g.collection) <= maxR as real
    ensures var h := GrowStep(k, rng, minR, maxR, resolution, g);
      && h.Ok?
      && |h.value.points| == |g.points| - 1
      && multiset(h.value.points) + multiset{p} == multiset(g.points)
      && h.value.collection == g.collection + [k.disc(p, MinDistance(k, p, g.collection) + 1.0, resolution)]
      && h.value.cursor == g.cursor + 1
  {
    RemoveDrawn(g.points, p);
    var circle := k.disc(p, MinDistance(k, p, g.collection) + 1.0, resolution);
    assert GrowStep(k, rng, minR, maxR, resolution, g) ==
      Ok(Growth(RemoveFirst(g.points, p), g.collection + [circle], g.iter + 1, g.cursor + 1));
  }

  /** d > max_r (and not below min_r, which is tested first): neither list changes. */
  lemma StepOutOfReach(k: Kernel, rng: Rng, minR: int, maxR: int, resolution: nat, g: Growth, p: Point)
    requires |g.points| > 0 && p == g.points[Draw(rng, g.cursor, |g.points|)]
    requires |g.collection| > 0 && MinDistance(k, p, g.collection) >= minR as real
    requires MinDistance(k, p, g.collection) > maxR as real
    ensures var h := GrowStep(k, rng, minR, maxR, resolution, g);
      && h.Ok?
      && h.value.points == g.points
      && h.value.collection == g.collection
      && h.value.cursor == g.cursor + 1
  {
  }

  /** Removing a point of the list takes out exactly one copy of it. */
  lemma RemoveDrawn(s: seq<Point>, p: Point)
    requires p in s
    ensures |RemoveFirst(s, p)| == |s| - 1
    ensures multiset(RemoveFirst(s, p)) + multiset{p} == multiset(s)
  {
    assert multiset(s)[p] > 0;
  }

  /** The loop fails only when it must draw a radius from an empty range: no seeds and min_r > max_r. */
  lemma {:induction false} GrowFailure(k: Kernel, rng: Rng, minR: int, maxR: int, resolution: nat, g: Growth)
    ensures Grow(k, rng, minR, maxR, resolution, g).Err? <==>
      |g.points| > 0 && g.iter < MaxIteration && |g.collection| == 0 && minR > maxR
    ensures Grow(k, rng, minR, maxR, resolution, g).Err? ==> Grow(k, rng, minR, maxR, resolution, g).failure == EmptyRandRange
    decreases MaxIteration - g.iter
  {
    if |g.points| > 0 && g.iter < MaxIteration {
      var step := GrowStep(k, rng, minR, maxR, resolution, g);
      if step.Ok? {
        GrowFailure(k, rng, minR, maxR, resolution, step.value);
        if |g.collection| > 0 {
          StepEffect(k, rng, minR, maxR, resolution, g);
        } else {
          assert |step.value.collection| == 1;
        }
      }
    }
  }

  /**
   * A finished run: it stops with no candidates left or after 200 rounds; the
   * seeds are an unchanged prefix of the result; at most one circle is added
   * per round; and the remaining candidates are among the starting ones.
   */
  lemma {:induction false} GrowBounds(k: Kernel, rng: Rng, minR: int, maxR: int, resolution: nat, g: Growth)
    requires g.iter <= MaxIteration && Grow(k, rng, minR, maxR, resolution, g).Ok?
    ensures var h := Grow(k, rng, minR, maxR, resolution, g).value;
      && g.iter <= h.iter <= MaxIteration
      && (|h.points| == 0 || h.iter == MaxIteration)
      && |g.collection| <= |h.collection| <= |g.collection| + (h.iter - g.iter)
      && (forall t :: 0 <= t < |g.collection| ==> h.collection[t] == g.collection[t])
      && (forall x :: x in h.points ==> x in g.points)
    decreases MaxIteration - g.iter
  {
    if |g.points| > 0 && g.iter < MaxIteration {
      var step := GrowStep(k, rng, minR, maxR, resolution, g).value;
      StepEffect(k, rng, minR, maxR, resolution, g);
      GrowBounds(k, rng, minR, maxR, resolution, step);
      RemoveFirstSubset(g.points, g.points[Draw(rng, g.cursor, |g.points|)]);
    }
  }

  lemma RemoveFirstSubset(s: seq<Point>, p: Point)
    ensures forall x :: x in RemoveFirst(s, p) ==> x in s
  {
    forall x | x in RemoveFirst(s, p) ensures x in s {
      assert x in multiset(RemoveFirst(s, p));
    }
  }

  /** Every circle a run adds is grown from a starting candidate by one of the two radius rules. */
  lemma {:induction false} GrowCircles(k: Kernel, rng: Rng, minR: int, maxR: int, resolution: nat, g: Growth)
    requires g.iter <= MaxIteration && Grow(k, rng, minR, maxR, resolution, g).Ok?
    ensures var h := Grow(k, rng, minR, maxR, resolution, g).value;
      forall t :: |g.collection| <= t < |h.collection| ==>
        GrownCircle(k, minR, maxR, resolution, g.points, h.collection[..t], h.collection[t])
    decreases MaxIteration - g.iter
  {
    if |g.points| > 0 && g.iter < MaxIteration {
      var step := GrowStep(k, rng, minR, maxR, resolution, g).value;
      var h := Grow(k, rng, minR, maxR, resolution, g).value;
      StepEffect(k, rng, minR, maxR, resolution, g);
      GrowCircles(k, rng, minR, maxR, resolution, step);
      GrowBounds(k, rng, minR, maxR, resolution, step);
      RemoveFirstSubset(g.points, g.points[Draw(rng, g.cursor, |g.points|)]);
      forall t | |g.collection| <= t < |h.collection|
        ensures GrownCircle(k, minR, maxR, resolution, g.points, h.collection[..t], h.collection[t])
      {
        if t < |step.collection| {
          assert t == |g.collection|;
          assert h.collection[..t] == g.collection;
          assert h.collection[t] == step.collection[t];
        } else {
          GrownFromLargerPool(k, minR, maxR, resolution, step.points, g.points, h.collection[..t], h.collection[t]);
        }
      }
    }
  }

  /** A round that succeeds hands the rest of the run to the state it produces. */
  lemma GrowAdvance(k: Kernel, rng: Rng, minR: int, maxR: int, resolution: nat, g: Growth)
    requires |g.points| > 0 && g.iter < MaxIteration
    ensures GrowStep(k, rng, minR, maxR, resolution, g).Ok? ==>
      Grow(k, rng, minR, maxR, resolution, g) == Grow(k, rng, minR, maxR, resolution, GrowStep(k, rng, minR, maxR, resolution, g).value)
    ensures GrowStep(k, rng, minR, maxR, resolution, g).Err? ==>
      Grow(k, rng, minR, maxR, resolution, g) == Err(EmptyRandRange)
  {
  }

  /** `generate_collection(base, min_r, max_r, density, resolution, seeds)`: the circles and the next random position. */
  method GenerateCollection(k: Kernel, rng: Rng, cursor: nat, base: Region, minR: int, maxR: int,
                            density: nat, resolution: nat, seeds: seq<Region>)
    returns (result: Result<seq<Region>>, next: nat)
    ensures var run := CollectionRun(k, rng, cursor, base, minR, maxR, density, resolution, seeds);
      && (run.Err? ==> result == Err(run.failure))
      && (run.Ok? ==> result == Ok(run.value.collection) && next == run.value.cursor)
  {
    var pointList := GridCandidates(k, base, density);
    var state := Growth(pointList, seeds, 0, cursor);
    ghost var start := state;
    while |state.points| > 0 && state.iter < MaxIteration
      invariant Grow(k, rng, minR, maxR, resolution, state) == Grow(k, rng, minR, maxR, resolution, start)
      decreases MaxIteration - state.iter
    {
      var step := GrowRound(k, rng, minR, maxR, resolution, state);
      GrowAdvance(k, rng, minR, maxR, resolution, state);
      if step.Err? {
        return Err(step.failure), state.cursor;
      }
      state := step.value;
    }
    return Ok(state.collection), state.cursor;
  }

  /** One pass of the `while` body: draw a candidate, then drop it, skip it, or grow a circle around it. */
  method GrowRound(k: Kernel, rng: Rng, minR: int, maxR: int, resolution: nat, g: Growth) returns (result: Result<Growth>)
    requires |g.points| > 0
    ensures result == GrowStep(k, rng, minR, maxR, resolution, g)
  {
    var c := g.cursor;
    var first := g.points[Draw(rng, c, |g.points|)];
    c := c + 1;
    if |g.collection| == 0 {
      if minR > maxR {
        return Err(EmptyRandRange);
      }
      var r := RandInt(rng, c, minR, maxR);
      c := c + 1;
      var collection := g.collection + [k.disc(first, Radius(r), resolution)];
      result := Ok(Growth(RemoveFirst(g.points, first), collection, g.iter + 1, c));
    } else {
      var d := MinDistance(k, first, g.collection);
      if d < minR as real {
        result := Ok(Growth(RemoveFirst(g.points, first), g.collection, g.iter + 1, c));
      } else if d > maxR as real {
        result := Ok(Growth(g.points, g.collection, g.iter + 1, c));
      } else {
        var collection := g.collection + [k.disc(first, d + 1.0, resolution)];
        result := Ok(Growth(RemoveFirst(g.points, first), collection, g.iter + 1, c));
      }
    }
  }
}
