/**
 * The entrance locator (`get_entrances`): boundary edges are ranked by
 * length, longest first; the longest edge's midpoint is the first
 * entrance, and every further midpoint, in ranked order, is accepted when
 * it is at least `distance` from every entrance accepted so far. The count
 * limit is tested only after a candidate has been considered. Each
 * accepted midpoint becomes a disc of radius 25.
 */
module Entrances {
  import opened Geometry
  import opened Sorting

  const EntranceRadius: real := 25.0
  /** shapely's default number of segments per quarter circle in `buffer`. */
  const DefaultResolution: nat := 16

  datatype Edge = Edge(start: Point, end: Point)

  /** The edges built from the boundary coordinates: i to (i + 1) mod n, closing pair included. */
  function Edges(coords: seq<Point>): seq<Edge> {
    seq(|coords|, i requires 0 <= i < |coords| => Edge(coords[i % |coords|], coords[(i + 1) % |coords|]))
  }

  function Length(k: Kernel, e: Edge): real {
    k.pointDistance(e.start, e.end)
  }

  function Lengths(k: Kernel, es: seq<Edge>): seq<real> {
    seq(|es|, i requires 0 <= i < |es| => Length(k, es[i]))
  }

  /** `sorted(lines, key=length, reverse=True)`. */
  function Ranked(k: Kernel, es: seq<Edge>): (r: seq<Edge>)
    ensures |r| == |es|
    ensures forall t :: 0 <= t < |r| ==> r[t] in es
  {
    var order := SortIndices(Lengths(k, es), true);
    SortIndicesSpec(Lengths(k, es), true);
    seq(|order|, t requires 0 <= t < |order| => es[order[t]])
  }

  /**
   * The ranking lists the edges in the order `order`, which names every
   * position once; the lengths never increase, edges of equal length keep
   * their boundary order, and the first is a longest edge, the earliest on ties.
   */
  lemma RankedSpec(k: Kernel, es: seq<Edge>)
    ensures var order := SortIndices(Lengths(k, es), true);
      && |order| == |es|
      && (forall x :: x in order <==> 0 <= x < |es|)
      && (forall t :: 0 <= t < |order| ==> order[t] < |es| && Ranked(k, es)[t] == es[order[t]])
      && (forall a, b :: 0 <= a < b < |es| && Length(k, Ranked(k, es)[a]) == Length(k, Ranked(k, es)[b]) ==> order[a] < order[b])
    ensures forall a, b :: 0 <= a < b < |es| ==> Length(k, Ranked(k, es)[a]) >= Length(k, Ranked(k, es)[b])
    ensures |es| > 0 ==>
      exists f :: 0 <= f < |es| && Ranked(k, es)[0] == es[f] &&
        (forall i :: 0 <= i < |es| ==> Length(k, es[f]) >= Length(k, es[i]) && (Length(k, es[f]) == Length(k, es[i]) ==> f <= i))
  {
    var keys := Lengths(k, es);
    var order := SortIndices(keys, true);
    SortIndicesSpec(keys, true);
    var r := Ranked(k, es);
    forall a, b | 0 <= a < b < |es|
      ensures Length(k, r[a]) >= Length(k, r[b])
      ensures Length(k, r[a]) == Length(k, r[b]) ==> order[a] < order[b]
    {
      assert Before(keys, true, order[a], order[b]);
    }
    if |es| > 0 {
      var f := order[0];
      forall i | 0 <= i < |es|
        ensures Length(k, es[f]) >= Length(k, es[i]) && (Length(k, es[f]) == Length(k, es[i]) ==> f <= i)
      {
        SortFirst(keys, true, i);
      }
      assert r[0] == es[f];
    }
  }

  /** The midpoints of the ranked edges, the candidate entrance centres. */
  function Candidates(k: Kernel, coords: seq<Point>): (cs: seq<Point>)
    ensures |cs| == |coords|
  {
    Midpoints(Ranked(k, Edges(coords)))
  }

  function Midpoints(es: seq<Edge>): (cs: seq<Point>)
    ensures |cs| == |es|
    ensures forall t :: 0 <= t < |es| ==> cs[t] == Midpoint(es[t].start, es[t].end)
  {
    seq(|es|, t requires 0 <= t < |es| => Midpoint(es[t].start, es[t].end))
  }

  /** Positions into the candidates, strictly increasing, all below `bound`. */
  predicate Increasing(chosen: seq<nat>, bound: nat) {
    (forall t :: 0 <= t < |chosen| ==> chosen[t] < bound) &&
    (forall a, b :: 0 <= a < b < |chosen| ==> chosen[a] < chosen[b])
  }

  /** Candidate e is at least `distance` from every entrance already chosen. */
  predicate FarFromAll(dist: (Point, Point) -> real, cands: seq<Point>, chosen: seq<nat>, e: Point, distance: real)
  {
    forall t :: 0 <= t < |chosen| && chosen[t] < |cands| ==> dist(e, cands[chosen[t]]) >= distance
  }

  /** Every chosen entrance is at least `distance` from each one chosen before it. */
  predicate Separated(dist: (Point, Point) -> real, cands: seq<Point>, chosen: seq<nat>, distance: real)
  {
    forall a, b :: 0 <= a < b < |chosen| && chosen[a] < |cands| && chosen[b] < |cands| ==>
      dist(cands[chosen[b]], cands[chosen[a]]) >= distance
  }

  /** One step of the scan: candidate i is accepted when it is far from every entrance so far. */
  function Consider(dist: (Point, Point) -> real, cands: seq<Point>, i: nat, chosen: seq<nat>, distance: real): (next: seq<nat>)
    requires i < |cands|
    ensures |chosen| <= |next| <= |chosen| + 1
    ensures forall t :: 0 <= t < |chosen| ==> next[t] == chosen[t]
    ensures |next| > |chosen| ==> next[|chosen|] == i
    ensures |next| > |chosen| <==> FarFromAll(dist, cands, chosen, cands[i], distance)
  {
    if FarFromAll(dist, cands, chosen, cands[i], distance) then chosen + [i] else chosen
  }

  /** The greedy scan from candidate i on, with `chosen` accepted so far. */
  function Select(dist: (Point, Point) -> real, cands: seq<Point>, i: nat, chosen: seq<nat>, count: int, distance: real): seq<nat>
    requires i <= |cands|
    decreases |cands| - i
  {
    if i == |cands| then chosen
    else
      var next := Consider(dist, cands, i, chosen, distance);
      if |next| >= count then next else Select(dist, cands, i + 1, next, count, distance)
  }

  /** The positions of the accepted entrances among the candidates. */
  function EntrancePositions(k: Kernel, coords: seq<Point>, count: int, distance: real): seq<nat>
    requires |coords| > 0
  {
    Select(k.pointDistance, Candidates(k, coords), 1, [0], count, distance)
  }

  /** The entrance centres `get_entrances` accepts, in acceptance order. */
  function EntranceCentres(k: Kernel, coords: seq<Point>, count: int, distance: real): (es: seq<Point>)
    requires |coords| > 0
  {
    var cands := Candidates(k, coords);
    var pos := EntrancePositions(k, coords, count, distance);
    SelectExtends(k.pointDistance, cands, 1, [0], count, distance);
    seq(|pos|, t requires 0 <= t < |pos| => cands[pos[t]])
  }

  /** The discs `get_entrances` returns, or the IndexError of an empty boundary. */
  function EntranceZones(k: Kernel, coords: seq<Point>, count: int, distance: real): Result<seq<Region>> {
    if |coords| == 0 then Err(NoBoundaryEdge)
    else
      Ok(Discs(k, EntranceCentres(k, coords, count, distance)))
  }

  /** `centre.buffer(25)` for every centre. */
  function Discs(k: Kernel, cs: seq<Point>): seq<Region> {
    seq(|cs|, t requires 0 <= t < |cs| => k.disc(cs[t], EntranceRadius, DefaultResolution))
  }

  /** The scan only appends: the accepted positions extend `chosen` with increasing positions from i on. */
  lemma {:induction false} SelectExtends(dist: (Point, Point) -> real, cands: seq<Point>, i: nat, chosen: seq<nat>, count: int, distance: real)
    requires i <= |cands| && Increasing(chosen, i)
    ensures var r := Select(dist, cands, i, chosen, count, distance);
      && Increasing(r, |cands|)
      && |chosen| <= |r| <= |chosen| + (|cands| - i)
      && (forall t :: 0 <= t < |chosen| ==> r[t] == chosen[t])
    decreases |cands| - i
  {
    if i < |cands| {
      var next := Consider(dist, cands, i, chosen, distance);
      assert Increasing(next, i + 1);
      if |next| < count {
        SelectExtends(dist, cands, i + 1, next, count, distance);
      }
    }
  }

  /** Every accepted candidate is far from all accepted before it. */
  lemma SelectSeparated(dist: (Point, Point) -> real, cands: seq<Point>, i: nat, chosen: seq<nat>, count: int, distance: real)
    requires i <= |cands|
    requires Separated(dist, cands, chosen, distance)
    ensures Separated(dist, cands, Select(dist, cands, i, chosen, count, distance), distance)
  {
    var sep := (c: seq<nat>) => Separated(dist, cands, c, distance);
    forall j: nat, c: seq<nat> | j < |cands| && sep(c)
      ensures sep(Consider(dist, cands, j, c, distance))
    {
      StepSeparated(dist, cands, j, c, distance);
    }
    SelectKeeps(sep, dist, cands, i, chosen, count, distance);
  }

  /** A property of the accepted list that every step of the scan keeps holds of the scan's result. */
  lemma {:induction false} SelectKeeps(inv: seq<nat> -> bool, dist: (Point, Point) -> real, cands: seq<Point>, i: nat, chosen: seq<nat>, count: int, distance: real)
    requires i <= |cands| && inv(chosen)
    requires forall j: nat, c: seq<nat> :: j < |cands| && inv(c) ==> inv(Consider(dist, cands, j, c, distance))
    ensures inv(Select(dist, cands, i, chosen, count, distance))
    decreases |cands| - i
  {
    if i < |cands| {
      var next := Consider(dist, cands, i, chosen, distance);
      if |next| < count {
        SelectKeeps(inv, dist, cands, i + 1, next, count, distance);
      }
    }
  }

  /** Accepting a far candidate keeps the entrances separated. */
  lemma StepSeparated(dist: (Point, Point) -> real, cands: seq<Point>, i: nat, chosen: seq<nat>, distance: real)
    requires i < |cands|
    requires Separated(dist, cands, chosen, distance)
    ensures Separated(dist, cands, Consider(dist, cands, i, chosen, distance), distance)
  {
    var next := Consider(dist, cands, i, chosen, distance);
    if |next| > |chosen| {
      assert FarFromAll(dist, cands, chosen, cands[i], distance);
      forall a, b | 0 <= a < b < |next| && next[a] < |cands| && next[b] < |cands|
        ensures dist(cands[next[b]], cands[next[a]]) >= distance
      {
        assert next[a] == chosen[a];
        if b < |chosen| {
          assert next[b] == chosen[b];
        }
      }
    }
  }

  /** The position after the last candidate the scan from i examines. */
  function SelectEnd(dist: (Point, Point) -> real, cands: seq<Point>, i: nat, chosen: seq<nat>, count: int, distance: real): (e: nat)
    requires i <= |cands|
    ensures i <= e <= |cands|
    decreases |cands| - i
  {
    if i == |cands| then i
    else
      var next := Consider(dist, cands, i, chosen, distance);
      if |next| >= count then i + 1 else SelectEnd(dist, cands, i + 1, next, count, distance)
  }

  /** Candidate p is closer than `distance` to an entrance accepted before it. */
  predicate Blocked(dist: (Point, Point) -> real, cands: seq<Point>, chosen: seq<nat>, p: nat, distance: real)
    requires p < |cands|
  {
    exists t :: 0 <= t < |chosen| && chosen[t] < p && dist(cands[p], cands[chosen[t]]) < distance
  }

  /** Every candidate before position `end` that is not accepted is blocked by an earlier entrance. */
  predicate BlockedBefore(dist: (Point, Point) -> real, cands: seq<Point>, chosen: seq<nat>, end: nat, distance: real)
    requires end <= |cands|
  {
    forall p :: 0 <= p < end && p !in chosen ==> Blocked(dist, cands, chosen, p, distance)
  }

  /** A candidate blocked by an entrance stays blocked when the accepted list grows. */
  lemma BlockedExtends(dist: (Point, Point) -> real, cands: seq<Point>, chosen: seq<nat>, next: seq<nat>, end: nat, distance: real)
    requires end <= |cands| && |chosen| <= |next|
    requires forall t :: 0 <= t < |chosen| ==> next[t] == chosen[t]
    requires forall x :: x in next && x < end ==> x in chosen
    requires BlockedBefore(dist, cands, chosen, end, distance)
    ensures BlockedBefore(dist, cands, next, end, distance)
  {
    forall p | 0 <= p < end && p !in next ensures Blocked(dist, cands, next, p, distance) {
      assert Blocked(dist, cands, chosen, p, distance);
      var t :| 0 <= t < |chosen| && chosen[t] < p && dist(cands[p], cands[chosen[t]]) < distance;
      assert next[t] == chosen[t];
    }
  }

  /**
   * The scan rejects a candidate only when an earlier entrance is too close,
   * and it examines every candidate unless it reaches `count`: a result
   * shorter than `count` comes from a scan to the last candidate.
   */
  lemma {:induction false} SelectComplete(dist: (Point, Point) -> real, cands: seq<Point>, i: nat, chosen: seq<nat>, count: int, distance: real)
    requires i <= |cands| && Increasing(chosen, i)
    requires BlockedBefore(dist, cands, chosen, i, distance)
    ensures var r := Select(dist, cands, i, chosen, count, distance);
      var e := SelectEnd(dist, cands, i, chosen, count, distance);
      && (|r| < count ==> e == |cands|)
      && BlockedBefore(dist, cands, r, e, distance)
    decreases |cands| - i
  {
    if i < |cands| {
      var next := Consider(dist, cands, i, chosen, distance);
      StepBlocked(dist, cands, i, chosen, distance);
      if |next| < count {
        SelectComplete(dist, cands, i + 1, next, count, distance);
      }
    }
  }

  /** A rejected candidate is blocked by an earlier entrance, and the candidates blocked before stay blocked. */
  lemma StepBlocked(dist: (Point, Point) -> real, cands: seq<Point>, i: nat, chosen: seq<nat>, distance: real)
    requires i < |cands| && Increasing(chosen, i)
    requires BlockedBefore(dist, cands, chosen, i, distance)
    ensures Increasing(Consider(dist, cands, i, chosen, distance), i + 1)
    ensures BlockedBefore(dist, cands, Consider(dist, cands, i, chosen, distance), i + 1, distance)
  {
    var next := Consider(dist, cands, i, chosen, distance);
    assert Increasing(next, i + 1);
    if |next| > |chosen| {
      assert next == chosen + [i];
    } else {
      var t :| 0 <= t < |chosen| && chosen[t] < |cands| && dist(cands[i], cands[chosen[t]]) < distance;
      assert chosen[t] < i;
      assert Blocked(dist, cands, chosen, i, distance);
    }
    BlockedExtends(dist, cands, chosen, next, i, distance);
  }

  /** The count is tested after a candidate is considered, so the scan may end one past `chosen` even when count is already met. */
  lemma {:induction false} SelectCount(dist: (Point, Point) -> real, cands: seq<Point>, i: nat, chosen: seq<nat>, count: int, distance: real)
    requires i <= |cands|
    ensures |Select(dist, cands, i, chosen, count, distance)| <= (if count > |chosen| then count else |chosen| + 1)
    decreases |cands| - i
  {
    if i < |cands| {
      var next := Consider(dist, cands, i, chosen, distance);
      if |next| < count {
        SelectCount(dist, cands, i + 1, next, count, distance);
      }
    }
  }

  /** The first entrance is the midpoint of a longest edge, the earliest one when several tie. */
  lemma EntranceFirstIsLongest(k: Kernel, coords: seq<Point>, count: int, distance: real)
    requires |coords| > 0
    ensures |EntranceCentres(k, coords, count, distance)| >= 1
    ensures var es := Edges(coords);
      exists f :: 0 <= f < |es| && EntranceCentres(k, coords, count, distance)[0] == Midpoint(es[f].start, es[f].end) &&
        forall i :: 0 <= i < |es| ==> Length(k, es[f]) >= Length(k, es[i]) && (Length(k, es[f]) == Length(k, es[i]) ==> f <= i)
  {
    var cands := Candidates(k, coords);
    SelectExtends(k.pointDistance, cands, 1, [0], count, distance);
    RankedSpec(k, Edges(coords));
    var pos := EntrancePositions(k, coords, count, distance);
    assert pos[0] == pos[..1][0] == 0;
  }

  /** There is at least one entrance and at most one per edge; at most `count` when count >= 2, at most two otherwise. */
  lemma EntranceCount(k: Kernel, coords: seq<Point>, count: int, distance: real)
    requires |coords| > 0
    ensures var es := EntranceCentres(k, coords, count, distance);
      && 1 <= |es| <= |coords|
      && (count >= 2 ==> |es| <= count)
      && |es| <= 2 + (if count > 2 then count - 2 else 0)
  {
    var cands := Candidates(k, coords);
    SelectExtends(k.pointDistance, cands, 1, [0], count, distance);
    SelectCount(k.pointDistance, cands, 1, [0], count, distance);
  }

  /** Every entrance is at least `distance` from each entrance accepted before it. */
  lemma EntrancesSeparated(k: Kernel, coords: seq<Point>, count: int, distance: real)
    requires |coords| > 0
    ensures var es := EntranceCentres(k, coords, count, distance);
      forall a, b :: 0 <= a < b < |es| ==> k.pointDistance(es[b], es[a]) >= distance
  {
    var cands := Candidates(k, coords);
    SelectExtends(k.pointDistance, cands, 1, [0], count, distance);
    SelectSeparated(k.pointDistance, cands, 1, [0], count, distance);
    var pos := EntrancePositions(k, coords, count, distance);
    assert Separated(k.pointDistance, cands, pos, distance);
  }

  /**
   * The entrances are the midpoints of ranked edges taken in ranking order,
   * so their edges' lengths never increase.
   */
  lemma EntrancesRanked(k: Kernel, coords: seq<Point>, count: int, distance: real)
    requires |coords| > 0
    ensures var ranked := Ranked(k, Edges(coords));
      var pos := EntrancePositions(k, coords, count, distance);
      var es := EntranceCentres(k, coords, count, distance);
      && Increasing(pos, |ranked|)
      && |pos| == |es|
      && (forall t :: 0 <= t < |pos| ==> es[t] == Midpoint(ranked[pos[t]].start, ranked[pos[t]].end))
      && (forall a, b :: 0 <= a < b < |pos| ==> Length(k, ranked[pos[a]]) >= Length(k, ranked[pos[b]]))
  {
    var cands := Candidates(k, coords);
    SelectExtends(k.pointDistance, cands, 1, [0], count, distance);
    RankedSpec(k, Edges(coords));
    var pos := EntrancePositions(k, coords, count, distance);
    var ranked := Ranked(k, Edges(coords));
    forall a, b | 0 <= a < b < |pos| ensures Length(k, ranked[pos[a]]) >= Length(k, ranked[pos[b]]) {
      assert pos[a] < pos[b];
    }
  }

  /**
   * Fewer entrances than asked for means none could be added: every
   * candidate midpoint that was not accepted is closer than `distance` to
   * an entrance accepted before it.
   */
  lemma EntrancesMaximal(k: Kernel, coords: seq<Point>, count: int, distance: real)
    requires |coords| > 0
    ensures var cands := Candidates(k, coords);
      var pos := EntrancePositions(k, coords, count, distance);
      |pos| < count ==> BlockedBefore(k.pointDistance, cands, pos, |cands|, distance)
  {
    var cands := Candidates(k, coords);
    SelectComplete(k.pointDistance, cands, 1, [0], count, distance);
  }

  /** An empty boundary is the only failure; otherwise every zone is a disc of radius 25 around an accepted centre. */
  lemma EntranceDiscs(k: Kernel, coords: seq<Point>, count: int, distance: real)
    ensures EntranceZones(k, coords, count, distance).Err? <==> |coords| == 0
    ensures |coords| > 0 ==>
      var zs := EntranceZones(k, coords, count, distance).value;
      var es := EntranceCentres(k, coords, count, distance);
      |zs| == |es| && forall t :: 0 <= t < |zs| ==> zs[t] == k.disc(es[t], EntranceRadius, DefaultResolution)
  {
  }

  /** With count 1 the second candidate is still considered: a far enough one makes two entrances. */
  lemma CountOneMayYieldTwo(k: Kernel, coords: seq<Point>, distance: real)
    requires |coords| >= 2
    requires k.pointDistance(Candidates(k, coords)[1], Candidates(k, coords)[0]) >= distance
    ensures |EntranceCentres(k, coords, 1, distance)| == 2
  {
    var cands := Candidates(k, coords);
    assert FarFromAll(k.pointDistance, cands, [0], cands[1], distance);
  }

  /** `get_entrances(base, entrances_count, distance)`. */
  method GetEntrances(k: Kernel, base: Region, count: int, distance: real) returns (zones: Result<seq<Region>>)
    ensures zones == EntranceZones(k, k.ring(base), count, distance)
  {
    var coords := k.ring(base);
    var lines := BoundaryEdges(coords);
    lines := Ranked(k, lines);
    if |lines| == 0 {
      return Err(NoBoundaryEdge);
    }
    var entrances := SpreadEntrances(k.pointDistance, lines, count, distance);
    assert entrances == EntranceCentres(k, coords, count, distance);
    zones := Ok(Discs(k, entrances));
  }

  /** The loop building `lines` from the boundary coordinates. */
  method BoundaryEdges(coords: seq<Point>) returns (lines: seq<Edge>)
    ensures lines == Edges(coords)
  {
    var n := |coords|;
    lines := [];
    var i := 0;
    while i < n
      invariant 0 <= i <= n
      invariant lines == Edges(coords)[..i]
    {
      lines := lines + [Edge(coords[i % n], coords[(i + 1) % n])];
      i := i + 1;
    }
  }

  /** `entrances` lists the candidates at positions `chosen`, in order. */
  predicate Picks(cands: seq<Point>, chosen: seq<nat>, entrances: seq<Point>) {
    && |entrances| == |chosen|
    && forall t :: 0 <= t < |chosen| ==> chosen[t] < |cands| && entrances[t] == cands[chosen[t]]
  }

  /** Testing against the picked points is testing against the chosen candidates. */
  lemma FarFromPicks(dist: (Point, Point) -> real, cands: seq<Point>, chosen: seq<nat>, entrances: seq<Point>, e: Point, distance: real)
    requires Picks(cands, chosen, entrances)
    ensures (forall t :: 0 <= t < |entrances| ==> dist(e, entrances[t]) >= distance) <==>
      FarFromAll(dist, cands, chosen, e, distance)
  {
    if forall t :: 0 <= t < |entrances| ==> dist(e, entrances[t]) >= distance {
      forall t | 0 <= t < |chosen| && chosen[t] < |cands| ensures dist(e, cands[chosen[t]]) >= distance {
        assert entrances[t] == cands[chosen[t]];
      }
    }
    if FarFromAll(dist, cands, chosen, e, distance) {
      forall t | 0 <= t < |entrances| ensures dist(e, entrances[t]) >= distance {
        assert chosen[t] < |cands| && entrances[t] == cands[chosen[t]];
      }
    }
  }

  /** Picking candidate i after the chosen ones keeps the points matched to their positions. */
  lemma PicksStep(dist: (Point, Point) -> real, cands: seq<Point>, i: nat, chosen: seq<nat>, entrances: seq<Point>, distance: real)
    requires i < |cands| && Picks(cands, chosen, entrances)
    ensures var next := Consider(dist, cands, i, chosen, distance);
      Picks(cands, next, if |next| > |chosen| then entrances + [cands[i]] else entrances)
  {
  }

  /** One iteration of the greedy loop: the inner test's verdict is the scan's step. */
  lemma SpreadStep(dist: (Point, Point) -> real, cands: seq<Point>, i: nat, chosen: seq<nat>, entrances: seq<Point>,
                   count: int, distance: real, acceptable: bool)
    requires i < |cands| && Picks(cands, chosen, entrances)
    requires acceptable <==> forall t :: 0 <= t < |entrances| ==> dist(cands[i], entrances[t]) >= distance
    ensures var next := Consider(dist, cands, i, chosen, distance);
      && Picks(cands, next, if acceptable then entrances + [cands[i]] else entrances)
      && Select(dist, cands, i, chosen, count, distance) ==
           (if |next| >= count then next else Select(dist, cands, i + 1, next, count, distance))
  {
    FarFromPicks(dist, cands, chosen, entrances, cands[i], distance);
    PicksStep(dist, cands, i, chosen, entrances, distance);
  }

  /** The greedy loop over the ranked edges, with the inner distance test. */
  method SpreadEntrances(dist: (Point, Point) -> real, lines: seq<Edge>, count: int, distance: real) returns (entrances: seq<Point>)
    requires |lines| > 0
    ensures Picks(Midpoints(lines), Select(dist, Midpoints(lines), 1, [0], count, distance), entrances)
  {
    ghost var cands := Midpoints(lines);
    ghost var target := Select(dist, cands, 1, [0], count, distance);
    var n := |lines|;
    entrances := [Midpoint(lines[0].start, lines[0].end)];
    ghost var chosen: seq<nat> := [0];
    var i := 1;
    while i < n
      invariant 1 <= i <= n
      invariant Select(dist, cands, i, chosen, count, distance) == target
      invariant Picks(cands, chosen, entrances)
    {
      var entrance := Midpoint(lines[i].start, lines[i].end);
      var acceptable := IsFarFrom(dist, entrance, entrances, distance);
      ghost var next := Consider(dist, cands, i, chosen, distance);
      SpreadStep(dist, cands, i, chosen, entrances, count, distance, acceptable);
      if acceptable {
        entrances := entrances + [entrance];
      }
      chosen := next;
      assert |entrances| == |chosen|;
      if |entrances| >= count {
        assert target == chosen;
        break;
      }
      assert Select(dist, cands, i + 1, chosen, count, distance) == target;
      i := i + 1;
    }
  }

  /** The inner loop of the scan: no accepted entrance is closer than `distance`. */
  method IsFarFrom(dist: (Point, Point) -> real, e: Point, entrances: seq<Point>, distance: real) returns (acceptable: bool)
    ensures acceptable <==> forall t :: 0 <= t < |entrances| ==> dist(e, entrances[t]) >= distance
  {
    acceptable := true;
    var j := 0;
    while j < |entrances|
      invariant 0 <= j <= |entrances|
      invariant acceptable <==> forall t :: 0 <= t < j ==> dist(e, entrances[t]) >= distance
    {
      if dist(e, entrances[j]) < distance {
        acceptable := false;
        break;
      }
      j := j + 1;
    }
  }
}
