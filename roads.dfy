/**
 * Road selection (`get_roads_v2`): every pair of circles i < j, taken in
 * lexicographic order, whose centroids are closer than `max_distance` is
 * joined by the segment between the centroids, unless that segment meets
 * the region outside the base (the difference between the base and its
 * envelope, eroded by 5).
 */
module Roads {
  import opened Geometry

  /** `base.symmetric_difference(base.envelope).buffer(-5)`. */
  function Outside(k: Kernel, base: Region): Region {
    k.buffer(k.symDiff(base, k.envelope(base)), -5.0)
  }

  /** The centroids of the circles. */
  function Centres(k: Kernel, collection: seq<Region>): (cs: seq<Point>)
    ensures |cs| == |collection|
    ensures forall t :: 0 <= t < |cs| ==> cs[t] == k.centroid(collection[t])
  {
    seq(|collection|, t requires 0 <= t < |collection| => k.centroid(collection[t]))
  }

  /** The two-point LineString from a to b. */
  function Segment(k: Kernel, a: Point, b: Point): Region {
    k.lineString([a, b])
  }

  /** Circles i and j are joined: close enough, and their segment stays clear of the outside. */
  predicate Linked(k: Kernel, outside: Region, cs: seq<Point>, maxDistance: real, i: nat, j: nat) {
    && i < |cs| && j < |cs|
    && k.pointDistance(cs[i], cs[j]) < maxDistance
    && !k.intersects(Segment(k, cs[i], cs[j]), outside)
  }

  /** The joining test as a relation on positions. */
  function LinkTest(k: Kernel, outside: Region, cs: seq<Point>, maxDistance: real): (nat, nat) -> bool {
    (i: nat, j: nat) => Linked(k, outside, cs, maxDistance, i, j)
  }

  /** The joined pairs (i, j) with i < j < m, in order of j. */
  function RowPairs(linked: (nat, nat) -> bool, i: nat, m: nat): seq<(nat, nat)> {
    if m <= i + 1 then []
    else RowPairs(linked, i, m - 1) + (if linked(i, m - 1) then [(i, m - 1)] else [])
  }

  /** The joined pairs of rows 0..r-1 out of n circles. */
  function PairsUpTo(linked: (nat, nat) -> bool, n: nat, r: nat): seq<(nat, nat)> {
    if r == 0 then []
    else PairsUpTo(linked, n, r - 1) + RowPairs(linked, r - 1, n)
  }

  /** The rows `range(len(collection) - 1)` visits. */
  function RowCount(n: nat): nat {
    if n == 0 then 0 else n - 1
  }

  /** The pairs `get_roads_v2` joins, in the order it emits their roads. */
  function LinkedPairs(k: Kernel, base: Region, collection: seq<Region>, maxDistance: real): seq<(nat, nat)> {
    var n := |collection|;
    PairsUpTo(LinkTest(k, Outside(k, base), Centres(k, collection), maxDistance), n, RowCount(n))
  }

  /** The road for each pair. */
  function Segments(k: Kernel, cs: seq<Point>, ps: seq<(nat, nat)>): seq<Region>
    requires forall t :: 0 <= t < |ps| ==> ps[t].0 < |cs| && ps[t].1 < |cs|
  {
    seq(|ps|, t requires 0 <= t < |ps| => Segment(k, cs[ps[t].0], cs[ps[t].1]))
  }

  /** Pair p comes before pair q in lexicographic order. */
  predicate LexBefore(p: (nat, nat), q: (nat, nat)) {
    p.0 < q.0 || (p.0 == q.0 && p.1 < q.1)
  }

  lemma {:induction false} RowPairsSpec(linked: (nat, nat) -> bool, i: nat, m: nat)
    ensures var ps := RowPairs(linked, i, m);
      && |ps| <= (if m <= i + 1 then 0 else m - 1 - i)
      && (forall t :: 0 <= t < |ps| ==> ps[t].0 == i && i < ps[t].1 < m)
      && (forall a, b :: 0 <= a < b < |ps| ==> ps[a].1 < ps[b].1)
      && (forall j: nat :: (i, j) in ps <==> i < j < m && linked(i, j))
  {
    if m > i + 1 {
      RowPairsSpec(linked, i, m - 1);
    }
  }

  lemma {:induction false} PairsUpToBounds(linked: (nat, nat) -> bool, n: nat, r: nat)
    ensures forall t :: 0 <= t < |PairsUpTo(linked, n, r)| ==>
      PairsUpTo(linked, n, r)[t].0 < r && PairsUpTo(linked, n, r)[t].0 < PairsUpTo(linked, n, r)[t].1 < n
  {
    if r > 0 {
      var prev := PairsUpTo(linked, n, r - 1);
      var row := RowPairs(linked, r - 1, n);
      PairsUpToBounds(linked, n, r - 1);
      RowPairsSpec(linked, r - 1, n);
      var ps: seq<(nat, nat)> := prev + row;
      forall t | 0 <= t < |ps| ensures ps[t].0 < r && ps[t].0 < ps[t].1 < n {
        if t < |prev| {
          assert ps[t] == prev[t];
        } else {
          assert ps[t] == row[t - |prev|];
        }
      }
    }
  }

  lemma {:induction false} PairsUpToOrder(linked: (nat, nat) -> bool, n: nat, r: nat)
    ensures forall a, b :: 0 <= a < b < |PairsUpTo(linked, n, r)| ==>
      LexBefore(PairsUpTo(linked, n, r)[a], PairsUpTo(linked, n, r)[b])
  {
    if r > 0 {
      PairsUpToOrder(linked, n, r - 1);
      PairsUpToBounds(linked, n, r - 1);
      RowPairsSpec(linked, r - 1, n);
      ConcatOrdered(PairsUpTo(linked, n, r - 1), RowPairs(linked, r - 1, n), r - 1);
    }
  }

  /** Two lexicographically ordered lists, the first below row i and the second on row i, concatenate in order. */
  lemma ConcatOrdered(prev: seq<(nat, nat)>, row: seq<(nat, nat)>, i: nat)
    requires forall a, b :: 0 <= a < b < |prev| ==> LexBefore(prev[a], prev[b])
    requires forall t :: 0 <= t < |prev| ==> prev[t].0 < i
    requires forall t :: 0 <= t < |row| ==> row[t].0 == i
    requires forall a, b :: 0 <= a < b < |row| ==> row[a].1 < row[b].1
    ensures forall a, b :: 0 <= a < b < |prev + row| ==> LexBefore((prev + row)[a], (prev + row)[b])
  {
    var ps := prev + row;
    forall a, b | 0 <= a < b < |ps| ensures LexBefore(ps[a], ps[b]) {
      if b < |prev| {
        assert ps[a] == prev[a] && ps[b] == prev[b];
      } else if a < |prev| {
        assert ps[a] == prev[a] && ps[b] == row[b - |prev|];
      } else {
        assert ps[a] == row[a - |prev|] && ps[b] == row[b - |prev|];
      }
    }
  }

  lemma {:induction false} PairsUpToMembers(linked: (nat, nat) -> bool, n: nat, r: nat)
    ensures forall i: nat, j: nat :: (i, j) in PairsUpTo(linked, n, r) <==> i < r && i < j < n && linked(i, j)
  {
    if r > 0 {
      PairsUpToMembers(linked, n, r - 1);
      RowPairsSpec(linked, r - 1, n);
    }
  }

  lemma TriangleStep(n: int, r: int)
    ensures 2 * (n - r) + (r - 1) * (2 * n - r) == r * (2 * n - r - 1)
  {
  }

  /** The size bound: rows below r hold at most r(2n - r - 1)/2 pairs. */
  lemma {:induction false} PairsUpToSize(linked: (nat, nat) -> bool, n: nat, r: nat)
    requires r <= n
    ensures 2 * |PairsUpTo(linked, n, r)| <= r * (2 * n - r - 1)
  {
    if r > 0 {
      PairsUpToSize(linked, n, r - 1);
      RowPairsSpec(linked, r - 1, n);
      TriangleStep(n, r);
    }
  }

  /**
   * `get_roads_v2` joins pair (i, j) exactly when i < j, the centroids are
   * closer than the limit and the segment misses the outside region; the
   * pairs come in strict lexicographic order, at most n(n-1)/2 of them.
   */
  lemma LinkedPairsSpec(k: Kernel, base: Region, collection: seq<Region>, maxDistance: real)
    ensures var ps := LinkedPairs(k, base, collection, maxDistance);
      var cs := Centres(k, collection);
      && (forall t :: 0 <= t < |ps| ==> ps[t].0 < ps[t].1 < |collection|)
      && (forall a, b :: 0 <= a < b < |ps| ==> LexBefore(ps[a], ps[b]))
      && (forall i: nat, j: nat :: (i, j) in ps <==>
            i < j < |collection| && Linked(k, Outside(k, base), cs, maxDistance, i, j))
      && 2 * |ps| <= |collection| * (|collection| - 1)
  {
    var n := |collection|;
    var linked := LinkTest(k, Outside(k, base), Centres(k, collection), maxDistance);
    PairsUpToBounds(linked, n, RowCount(n));
    PairsUpToOrder(linked, n, RowCount(n));
    PairsUpToMembers(linked, n, RowCount(n));
    PairsUpToSize(linked, n, RowCount(n));
    TriangleStep(n, n);
  }

  /** The roads `get_roads_v2` returns: one segment per joined pair, in pair order. */
  function RoadList(k: Kernel, base: Region, collection: seq<Region>, maxDistance: real): seq<Region> {
    PairsUpToBounds(LinkTest(k, Outside(k, base), Centres(k, collection), maxDistance), |collection|, RowCount(|collection|));
    Segments(k, Centres(k, collection), LinkedPairs(k, base, collection, maxDistance))
  }

  /** `road` is the straight segment between the centres of some linked pair of circles. */
  ghost predicate JoinsLinked(k: Kernel, base: Region, collection: seq<Region>, maxDistance: real, road: Region) {
    exists i: nat, j: nat ::
      && i < j < |collection|
      && Linked(k, Outside(k, base), Centres(k, collection), maxDistance, i, j)
      && road == Segment(k, k.centroid(collection[i]), k.centroid(collection[j]))
  }

  /** Some road of `get_roads_v2` is the segment between the centres of circles i and j. */
  ghost predicate HasRoad(k: Kernel, base: Region, collection: seq<Region>, maxDistance: real, i: nat, j: nat)
    requires i < j < |collection|
  {
    exists t :: 0 <= t < |RoadList(k, base, collection, maxDistance)| &&
      RoadList(k, base, collection, maxDistance)[t] == Segment(k, k.centroid(collection[i]), k.centroid(collection[j]))
  }

  /** Road t of `get_roads_v2` joins the centres of the t-th linked pair. */
  lemma RoadAt(k: Kernel, base: Region, collection: seq<Region>, maxDistance: real, t: nat)
    requires t < |RoadList(k, base, collection, maxDistance)|
    ensures JoinsLinked(k, base, collection, maxDistance, RoadList(k, base, collection, maxDistance)[t])
  {
    var cs := Centres(k, collection);
    var ps := LinkedPairs(k, base, collection, maxDistance);
    LinkedPairsSpec(k, base, collection, maxDistance);
    var i, j := ps[t].0, ps[t].1;
    assert (i, j) == ps[t] && (i, j) in ps;
    assert i < j < |collection| && Linked(k, Outside(k, base), cs, maxDistance, i, j);
    assert RoadList(k, base, collection, maxDistance)[t] == Segment(k, cs[i], cs[j]);
    assert cs[i] == k.centroid(collection[i]) && cs[j] == k.centroid(collection[j]);
  }

  /** A linked pair (i, j) of `get_roads_v2` has its road among the results. */
  lemma RoadFor(k: Kernel, base: Region, collection: seq<Region>, maxDistance: real, i: nat, j: nat)
    requires i < j < |collection| && Linked(k, Outside(k, base), Centres(k, collection), maxDistance, i, j)
    ensures HasRoad(k, base, collection, maxDistance, i, j)
  {
    var cs := Centres(k, collection);
    var ps := LinkedPairs(k, base, collection, maxDistance);
    LinkedPairsSpec(k, base, collection, maxDistance);
    assert (i, j) in ps;
    var t :| 0 <= t < |ps| && ps[t] == (i, j);
    assert RoadList(k, base, collection, maxDistance)[t] == Segment(k, cs[i], cs[j]);
  }

  /**
   * `get_roads_v2` returns one straight road per linked pair of circles, in
   * the order of the double loop: every road joins two centres that are
   * linked, every linked pair gets a road, and there are at most
   * n(n-1)/2 roads for n circles.
   */
  lemma RoadListSpec(k: Kernel, base: Region, collection: seq<Region>, maxDistance: real)
    ensures 2 * |RoadList(k, base, collection, maxDistance)| <= |collection| * (|collection| - 1)
    ensures forall t :: 0 <= t < |RoadList(k, base, collection, maxDistance)| ==>
      JoinsLinked(k, base, collection, maxDistance, RoadList(k, base, collection, maxDistance)[t])
    ensures forall i: nat, j: nat :: i < j < |collection| && Linked(k, Outside(k, base), Centres(k, collection), maxDistance, i, j) ==>
      HasRoad(k, base, collection, maxDistance, i, j)
  {
    LinkedPairsSpec(k, base, collection, maxDistance);
    forall t | 0 <= t < |RoadList(k, base, collection, maxDistance)|
      ensures JoinsLinked(k, base, collection, maxDistance, RoadList(k, base, collection, maxDistance)[t])
    {
      RoadAt(k, base, collection, maxDistance, t);
    }
    forall i: nat, j: nat | i < j < |collection| && Linked(k, Outside(k, base), Centres(k, collection), maxDistance, i, j)
      ensures HasRoad(k, base, collection, maxDistance, i, j)
    {
      RoadFor(k, base, collection, maxDistance, i, j);
    }
  }

  /** Each road is the segment between the centres of its pair. */
  ghost predicate Matched(k: Kernel, cs: seq<Point>, pairs: seq<(nat, nat)>, roads: seq<Region>) {
    && |roads| == |pairs|
    && forall t :: 0 <= t < |pairs| ==>
      (pairs[t].0 < |cs| && pairs[t].1 < |cs| && roads[t] == Segment(k, cs[pairs[t].0], cs[pairs[t].1]))
  }

  /** Roads listed element-wise against their pairs are the Segments of those pairs. */
  lemma SegmentsOf(k: Kernel, cs: seq<Point>, pairs: seq<(nat, nat)>, roads: seq<Region>)
    requires Matched(k, cs, pairs, roads)
    ensures roads == Segments(k, cs, pairs)
  {
  }

  /** Appending a row of roads to the roads so far keeps them matched to their pairs. */
  lemma AppendRoads(k: Kernel, cs: seq<Point>, pairs: seq<(nat, nat)>, roads: seq<Region>,
                    rowPairs: seq<(nat, nat)>, row: seq<Region>)
    requires Matched(k, cs, pairs, roads) && Matched(k, cs, rowPairs, row)
    ensures Matched(k, cs, pairs + rowPairs, roads + row)
  {
    var ps, rs := pairs + rowPairs, roads + row;
    forall t | 0 <= t < |ps| ensures ps[t].0 < |cs| && ps[t].1 < |cs| && rs[t] == Segment(k, cs[ps[t].0], cs[ps[t].1]) {
      if t < |pairs| {
        assert ps[t] == pairs[t] && rs[t] == roads[t];
      } else {
        assert ps[t] == rowPairs[t - |pairs|] && rs[t] == row[t - |pairs|];
      }
    }
  }

  /** `get_roads_v2(collection, base, max_distance)`. */
  method GetRoads(k: Kernel, collection: seq<Region>, base: Region, maxDistance: real) returns (roads: seq<Region>)
    ensures roads == RoadList(k, base, collection, maxDistance)
  {
    ghost var cs := Centres(k, collection);
    var outside := k.buffer(k.symDiff(base, k.envelope(base)), -5.0);
    assert outside == Outside(k, base);
    ghost var linked := LinkTest(k, outside, cs, maxDistance);
    var n := |collection|;
    roads := [];
    var i := 0;
    while i < n - 1
      invariant 0 <= i <= RowCount(n)
      invariant Matched(k, cs, PairsUpTo(linked, n, i), roads)
    {
      var row := JoinRow(k, collection, outside, maxDistance, i);
      AppendRoads(k, cs, PairsUpTo(linked, n, i), roads, RowPairs(linked, i, n), row);
      roads := roads + row;
      i := i + 1;
    }
    RoadsDone(k, base, collection, maxDistance, roads);
  }

  /** Roads matched to the linked pairs are the roads `get_roads_v2` returns. */
  lemma RoadsDone(k: Kernel, base: Region, collection: seq<Region>, maxDistance: real, roads: seq<Region>)
    requires Matched(k, Centres(k, collection), LinkedPairs(k, base, collection, maxDistance), roads)
    ensures roads == RoadList(k, base, collection, maxDistance)
  {
    SegmentsOf(k, Centres(k, collection), LinkedPairs(k, base, collection, maxDistance), roads);
  }

  /** The inner loop of `get_roads_v2`: the roads from circle i to the circles after it. */
  method JoinRow(k: Kernel, collection: seq<Region>, outside: Region, maxDistance: real, i: nat)
    returns (row: seq<Region>)
    ensures Matched(k, Centres(k, collection), RowPairs(LinkTest(k, outside, Centres(k, collection), maxDistance), i, |collection|), row)
  {
    ghost var cs := Centres(k, collection);
    ghost var linked := LinkTest(k, outside, cs, maxDistance);
    var n := |collection|;
    row := [];
    ghost var pairs: seq<(nat, nat)> := [];
    var j := i + 1;
    while j < n
      invariant i + 1 <= j
      invariant pairs == RowPairs(linked, i, if j <= n then j else n)
      invariant Matched(k, cs, pairs, row)
    {
      var element1 := collection[i];
      var element2 := collection[j];
      if k.pointDistance(k.centroid(element1), k.centroid(element2)) < maxDistance {
        var line := k.lineString([k.centroid(element1), k.centroid(element2)]);
        if !k.intersects(line, outside) {
          assert line == Segment(k, cs[i], cs[j]);
          AppendRoads(k, cs, pairs, row, [(i, j)], [line]);
          row := row + [line];
          pairs := pairs + [(i, j)];
        }
      }
      j := j + 1;
    }
  }
}
