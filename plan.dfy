/**
 * Greedy building placement (`generate_plan`). The bands are shuffled in
 * place; then, for each non-empty band, the walk starts at a random
 * boundary vertex and visits `len(coords) - 1` consecutive cyclic vertex
 * pairs. An edge of length d offers `int(d / 3)` slots, each at a random
 * rotation of the slot order; a building goes into a slot only if it
 * misses the shadows placed so far and, once there are buildings, its own
 * shadow misses them. The two accumulators only ever grow.
 */
module Plan {
  import opened Geometry

  /** The accumulators: `overall_buildings` (None until the first placement) and `overall_shadows`. */
  datatype Plan = Plan(buildings: Option<Region>, shadows: Region)

  /** The accumulators together with the position in the random stream. */
  datatype Progress = Progress(plan: Plan, cursor: nat)

  /** `building_length`, `building_width`, `shadow_h` and `fix_angle`. */
  datatype Style = Style(length: real, width: real, shadowH: real, fixAngle: Option<real>)

  const DefaultStyle := Style(32.0, 16.0, 80.0, None)

  // ---------------------------------------------------------------------
  // random.shuffle
  // ---------------------------------------------------------------------

  function Swap<T>(s: seq<T>, i: nat, j: nat): (r: seq<T>)
    requires i < |s| && j < |s|
    ensures |r| == |s| && r[i] == s[j] && r[j] == s[i]
    ensures forall t :: 0 <= t < |s| && t != i && t != j ==> r[t] == s[t]
  {
    s[i := s[j]][j := s[i]]
  }

  /** CPython's shuffle from position i down to 1: swap position i with a draw below i + 1. */
  function ShuffleFrom<T>(s: seq<T>, rng: Rng, cursor: nat, i: nat): (r: seq<T>)
    requires i < |s|
    ensures |r| == |s|
    decreases i
  {
    if i == 0 then s
    else ShuffleFrom(Swap(s, i, Draw(rng, cursor, i + 1)), rng, cursor + 1, i - 1)
  }

  /** `random.shuffle(x)`: the same elements in a new order. */
  function Shuffled<T>(s: seq<T>, rng: Rng, cursor: nat): seq<T> {
    if |s| == 0 then s else ShuffleFrom(s, rng, cursor, |s| - 1)
  }

  /** The draws `random.shuffle` consumes on a list of length n. */
  function ShuffleDraws(n: nat): nat {
    if n == 0 then 0 else n - 1
  }

  lemma SwapPermutes<T>(s: seq<T>, i: nat, j: nat)
    requires i < |s| && j < |s|
    ensures multiset(Swap(s, i, j)) == multiset(s)
  {
  }

  lemma {:induction false} ShuffleFromPermutes<T>(s: seq<T>, rng: Rng, cursor: nat, i: nat)
    requires i < |s|
    ensures multiset(ShuffleFrom(s, rng, cursor, i)) == multiset(s)
    decreases i
  {
    if i > 0 {
      var j := Draw(rng, cursor, i + 1);
      SwapPermutes(s, i, j);
      ShuffleFromPermutes(Swap(s, i, j), rng, cursor + 1, i - 1);
    }
  }

  /** Shuffling permutes the list. */
  lemma ShufflePermutes<T>(s: seq<T>, rng: Rng, cursor: nat)
    ensures |Shuffled(s, rng, cursor)| == |s|
    ensures multiset(Shuffled(s, rng, cursor)) == multiset(s)
    ensures forall x :: x in Shuffled(s, rng, cursor) <==> x in s
  {
    var r := Shuffled(s, rng, cursor);
    if |s| > 0 {
      ShuffleFromPermutes(s, rng, cursor, |s| - 1);
    }
    forall x ensures x in r <==> x in s {
      assert x in r <==> x in multiset(r);
      assert x in s <==> x in multiset(s);
    }
  }

  /** `random.shuffle(collection_buffered)`, in place. */
  method Shuffle(a: array<Region>, rng: Rng, cursor: nat) returns (next: nat)
    modifies a
    ensures a[..] == Shuffled(old(a[..]), rng, cursor)
    ensures next == cursor + ShuffleDraws(a.Length)
  {
    next := cursor;
    if a.Length == 0 {
      return;
    }
    var i := a.Length - 1;
    while i > 0
      invariant 0 <= i < a.Length
      invariant next == cursor + (a.Length - 1 - i)
      invariant ShuffleFrom(a[..], rng, next, i) == Shuffled(old(a[..]), rng, cursor)
    {
      var j := Draw(rng, next, i + 1);
      SwapAt(a, i, j);
      next := next + 1;
      i := i - 1;
    }
  }

  /** `x[i], x[j] = x[j], x[i]`. */
  method SwapAt(a: array<Region>, i: nat, j: nat)
    requires i < a.Length && j < a.Length
    modifies a
    ensures a[..] == Swap(old(a[..]), i, j)
  {
    var moved := a[i];
    a[i] := a[j];
    a[j] := moved;
  }

  // ---------------------------------------------------------------------
  // One slot: the acceptance rule
  // ---------------------------------------------------------------------

  /** `not overall_buildings`: no buildings yet, or an empty geometry. */
  predicate NoBuildings(k: Kernel, buildings: Option<Region>) {
    buildings.None? || k.isEmpty(buildings.value)
  }

  /** The tests a candidate must pass: it misses the shadows, and once there are buildings its shadow misses them. */
  predicate Acceptable(k: Kernel, p: Plan, building: Region, shadow: Region) {
    if NoBuildings(k, p.buildings) then !k.intersects(p.shadows, building)
    else !k.intersects(p.shadows, building) && !k.intersects(p.buildings.value, shadow)
  }

  /** Placing the candidate: the first building replaces the accumulator, later ones are unioned in. */
  function Accept(k: Kernel, p: Plan, building: Region, shadow: Region): Plan {
    if NoBuildings(k, p.buildings) then Plan(Some(building), k.union(p.shadows, shadow))
    else Plan(Some(k.union(p.buildings.value, building)), k.union(p.shadows, shadow))
  }

  function TryPlace(k: Kernel, p: Plan, building: Region, shadow: Region): Plan {
    if Acceptable(k, p, building, shadow) then Accept(k, p, building, shadow) else p
  }

  /**
   * Everything that meets the old shadows meets the new ones, a plan with
   * buildings keeps them, and everything that meets the old buildings meets
   * the new ones.
   */
  ghost predicate Grows(k: Kernel, p: Plan, q: Plan) {
    && (forall c :: k.intersects(p.shadows, c) ==> k.intersects(q.shadows, c))
    && (p.buildings.Some? ==> q.buildings.Some?)
    && (p.buildings.Some? ==> forall c :: k.intersects(p.buildings.value, c) ==> k.intersects(q.buildings.value, c))
  }

  lemma GrowsRefl(k: Kernel, p: Plan)
    ensures Grows(k, p, p)
  {
  }

  lemma GrowsTrans(k: Kernel, p: Plan, q: Plan, r: Plan)
    requires Grows(k, p, q) && Grows(k, q, r)
    ensures Grows(k, p, r)
  {
  }

  /**
   * A candidate is placed exactly when it passes the tests; a placed
   * building misses the shadows as they stood, and, when buildings already
   * existed, its shadow misses them; a rejected candidate changes nothing.
   */
  lemma TryPlaceSpec(k: Kernel, p: Plan, building: Region, shadow: Region)
    ensures var q := TryPlace(k, p, building, shadow);
      && (q != p ==> Acceptable(k, p, building, shadow))
      && (Acceptable(k, p, building, shadow) ==> q.buildings.Some? && q.shadows == k.union(p.shadows, shadow))
      && (Acceptable(k, p, building, shadow) ==> !k.intersects(p.shadows, building))
      && (Acceptable(k, p, building, shadow) && !NoBuildings(k, p.buildings) ==> !k.intersects(p.buildings.value, shadow))
      && (!Acceptable(k, p, building, shadow) ==> q == p)
  {
  }

  /** Placing a candidate only grows the accumulators, and the placed building and shadow join them. */
  lemma TryPlaceGrows(k: Kernel, p: Plan, building: Region, shadow: Region)
    requires UnionLaws(k)
    ensures Grows(k, p, TryPlace(k, p, building, shadow))
    ensures Acceptable(k, p, building, shadow) ==>
      forall c :: k.intersects(shadow, c) ==> k.intersects(TryPlace(k, p, building, shadow).shadows, c)
  {
    var q := TryPlace(k, p, building, shadow);
    if Acceptable(k, p, building, shadow) && p.buildings.Some? {
      forall c | k.intersects(p.buildings.value, c) ensures k.intersects(q.buildings.value, c) {
        assert !k.isEmpty(p.buildings.value);
      }
    }
  }

  /**
   * The greedy clearance: a candidate accepted now misses every shadow
   * region of any earlier state, and its shadow misses every earlier
   * building region.
   */
  lemma AcceptedClearOfEarlier(k: Kernel, p0: Plan, p: Plan, building: Region, shadow: Region)
    requires UnionLaws(k)
    requires Grows(k, p0, p)
    requires Acceptable(k, p, building, shadow)
    ensures !k.intersects(p0.shadows, building)
    ensures p0.buildings.Some? ==> !k.intersects(p0.buildings.value, shadow)
  {
    if p0.buildings.Some? && NoBuildings(k, p.buildings) {
      assert p.buildings.Some? && k.isEmpty(p.buildings.value);
      assert !k.intersects(p.buildings.value, shadow);
    }
  }

  // ---------------------------------------------------------------------
  // One edge: the slots
  // ---------------------------------------------------------------------

  /** The building angle: the edge heading unless `fix_angle` is set and non-zero. */
  function Angle(k: Kernel, style: Style, start: Point, end: Point): real {
    if style.fixAngle.Some? && style.fixAngle.value != 0.0 then style.fixAngle.value else k.heading(start, end)
  }

  /** `int(line.length / 3)`. */
  function SlotCount(k: Kernel, start: Point, end: Point): int {
    Trunc(k.pointDistance(start, end) / 3.0)
  }

  /** The index `(j + k) % n` of slot j under rotation offset. */
  function SlotIndex(n: nat, j: nat, offset: int): (idx: nat)
    requires n > 0 && offset >= 0
    ensures idx < n
  {
    PyMod(j + offset, n)
  }

  /** The centre of slot j: `start + ((j + k) % n) * (end - start) / n`. */
  function SlotCentre(start: Point, end: Point, n: nat, j: nat, offset: int): Point
    requires n > 0 && offset >= 0
  {
    var idx := SlotIndex(n, j, offset) as real;
    Point(start.x + idx * (end.x - start.x) / (n as real), start.y + idx * (end.y - start.y) / (n as real))
  }

  /** A slot centre lies on the edge, at a fraction in [0, 1) of the way from start to end. */
  lemma SlotCentreOnEdge(start: Point, end: Point, n: nat, j: nat, offset: int)
    requires n > 0 && offset >= 0
    ensures var f := SlotIndex(n, j, offset) as real / n as real;
      && 0.0 <= f < 1.0
      && SlotCentre(start, end, n, j, offset) == Point(start.x + f * (end.x - start.x), start.y + f * (end.y - start.y))
  {
    var idx := SlotIndex(n, j, offset) as real;
    var f := idx / n as real;
    assert idx * (end.x - start.x) / (n as real) == f * (end.x - start.x);
    assert idx * (end.y - start.y) / (n as real) == f * (end.y - start.y);
  }

  /** An edge of length d >= 0 gets n slots with 3n <= d < 3(n + 1). */
  lemma SlotCountBounds(k: Kernel, start: Point, end: Point)
    requires k.pointDistance(start, end) >= 0.0
    ensures var n := SlotCount(k, start, end);
      n >= 0 && 3.0 * n as real <= k.pointDistance(start, end) < 3.0 * (n as real + 1.0)
  {
  }

  /** The candidate at slot j: the building and its shadow at the slot centre. */
  function Building(k: Kernel, style: Style, angle: real, centre: Point): Region {
    k.building(style.length, style.width, angle, centre)
  }

  function Shadow(k: Kernel, style: Style, angle: real, centre: Point): Region {
    k.shadow(style.length, style.width, angle, centre, style.shadowH)
  }

  /** Slots j..n-1 of an edge, each drawing its offset with `randint(0, n - 1)`. */
  function Slots(k: Kernel, rng: Rng, style: Style, angle: real, start: Point, end: Point, n: nat, j: nat, pr: Progress): (r: Progress)
    requires n > 0
    ensures j <= n ==> r.cursor == pr.cursor + (n - j)
    ensures j > n ==> r == pr
    decreases n - j
  {
    if j >= n then pr
    else
      var offset := RandInt(rng, pr.cursor, 0, n - 1);
      var centre := SlotCentre(start, end, n, j, offset);
      var plan := TryPlace(k, pr.plan, Building(k, style, angle, centre), Shadow(k, style, angle, centre));
      Slots(k, rng, style, angle, start, end, n, j + 1, Progress(plan, pr.cursor + 1))
  }

  /** One edge of the walk: the pair of coordinates i and i + 1, cyclically. */
  function Edge(k: Kernel, rng: Rng, style: Style, coords: seq<Point>, i: nat, pr: Progress): Progress
    requires |coords| > 0
  {
    var start := coords[i % |coords|];
    var end := coords[(i + 1) % |coords|];
    var n := SlotCount(k, start, end);
    if n <= 0 then pr else Slots(k, rng, style, Angle(k, style, start, end), start, end, n, 0, pr)
  }

  /** The edges i..stop-1 of the walk. */
  function Walk(k: Kernel, rng: Rng, style: Style, coords: seq<Point>, i: nat, stop: nat, pr: Progress): Progress
    requires |coords| > 0
    decreases stop - i
  {
    if i >= stop then pr else Walk(k, rng, style, coords, i + 1, stop, Edge(k, rng, style, coords, i, pr))
  }

  /** One band: skipped when empty; otherwise the walk from a random vertex over `len(coords) - 1` pairs. */
  function Band(k: Kernel, rng: Rng, style: Style, base: Region, pr: Progress): Result<Progress> {
    if k.isEmpty(base) then Ok(pr)
    else
      var coords := k.ring(base);
      if |coords| == 0 then Err(EmptyChoice)
      else
        var start := Draw(rng, pr.cursor, |coords|);
        Ok(Walk(k, rng, style, coords, start, start + |coords| - 1, Progress(pr.plan, pr.cursor + 1)))
  }

  /** The bands t.. of the shuffled list, in order. */
  function Bands(k: Kernel, rng: Rng, style: Style, bases: seq<Region>, t: nat, pr: Progress): Result<Progress>
    decreases |bases| - t
  {
    if t >= |bases| then Ok(pr)
    else
      match Band(k, rng, style, bases[t], pr)
      case Err(f) => Err(f)
      case Ok(q) => Bands(k, rng, style, bases, t + 1, q)
  }

  /** `generate_plan(collection_buffered, overall_shadows, overall_buildings, ...)`. */
  function PlanRun(k: Kernel, rng: Rng, cursor: nat, bases: seq<Region>, shadows: Region, buildings: Option<Region>, style: Style): Result<Progress> {
    Bands(k, rng, style, Shuffled(bases, rng, cursor), 0, Progress(Plan(buildings, shadows), cursor + ShuffleDraws(|bases|)))
  }

  // ---------------------------------------------------------------------
  // The walk over a closed ring
  // ---------------------------------------------------------------------

  /**
   * The walk from vertex s visits the pairs starting at the positions
   * (s + t) mod L for t < L - 1: every position except the one before s.
   */
  lemma WalkPositions(len: nat, s: nat, p: nat)
    requires 0 < len && s < len && p < len
    ensures (exists i :: s <= i < s + len - 1 && i % len == p) <==> p != (s + len - 1) % len
  {
    ModWrap(s + len - 1, len);
    if p != (s + len - 1) % len {
      var i := if p >= s then p else p + len;
      ModWrap(i, len);
      assert s <= i < s + len - 1 && i % len == p;
    } else {
      forall i | s <= i < s + len - 1 ensures i % len != p {
        ModWrap(i, len);
      }
    }
  }

  /** Reduction modulo len of a position below 2 len. */
  lemma ModWrap(i: int, len: int)
    requires 0 < len && 0 <= i < 2 * len
    ensures i % len == if i < len then i else i - len
  {
    if i < len {
      assert i == len * 0 + i;
    } else {
      assert i == len * 1 + (i - len);
    }
  }

  /**
   * On a closed ring (first coordinate repeated last) the walk from s = 0
   * visits exactly the L - 1 sides. From s > 0 it visits the zero-length
   * closing pair (last, first) instead of the side that ends at vertex s,
   * so one side of the band gets no slots.
   */
  lemma ClosedRingWalk(coords: seq<Point>, s: nat)
    requires |coords| >= 2 && coords[0] == coords[|coords| - 1] && s < |coords|
    ensures s == 0 ==> forall i :: s <= i < s + |coords| - 1 ==> i % |coords| == i && i + 1 < |coords|
    ensures s > 0 ==>
      var len := |coords|;
      && s <= len - 1 < s + len - 1
      && coords[(len - 1) % len] == coords[len - 1] && coords[len % len] == coords[len - 1]
      && !(exists i :: s <= i < s + len - 1 && i % len == s - 1)
  {
    var len := |coords|;
    if s == 0 {
      forall i | s <= i < s + len - 1 ensures i % len == i {
        ModWrap(i, len);
      }
    } else {
      WalkPositions(len, s, s - 1);
      ModWrap(s + len - 1, len);
      ModWrap(len - 1, len);
      ModWrap(len, len);
    }
  }

  // ---------------------------------------------------------------------
  // Growth over the whole run
  // ---------------------------------------------------------------------

  lemma {:induction false} SlotsGrow(k: Kernel, rng: Rng, style: Style, angle: real, start: Point, end: Point, n: nat, j: nat, pr: Progress)
    requires UnionLaws(k) && n > 0
    ensures Grows(k, pr.plan, Slots(k, rng, style, angle, start, end, n, j, pr).plan)
    decreases n - j
  {
    if j < n {
      var offset := RandInt(rng, pr.cursor, 0, n - 1);
      var centre := SlotCentre(start, end, n, j, offset);
      var b, sh := Building(k, style, angle, centre), Shadow(k, style, angle, centre);
      var q := Progress(TryPlace(k, pr.plan, b, sh), pr.cursor + 1);
      TryPlaceGrows(k, pr.plan, b, sh);
      SlotsGrow(k, rng, style, angle, start, end, n, j + 1, q);
      GrowsTrans(k, pr.plan, q.plan, Slots(k, rng, style, angle, start, end, n, j + 1, q).plan);
    }
  }

  lemma {:induction false} WalkGrows(k: Kernel, rng: Rng, style: Style, coords: seq<Point>, i: nat, stop: nat, pr: Progress)
    requires UnionLaws(k) && |coords| > 0
    ensures Grows(k, pr.plan, Walk(k, rng, style, coords, i, stop, pr).plan)
    ensures pr.cursor <= Walk(k, rng, style, coords, i, stop, pr).cursor
    decreases stop - i
  {
    if i < stop {
      var q := Edge(k, rng, style, coords, i, pr);
      var start, end := coords[i % |coords|], coords[(i + 1) % |coords|];
      var n := SlotCount(k, start, end);
      if n > 0 {
        SlotsGrow(k, rng, style, Angle(k, style, start, end), start, end, n, 0, pr);
      }
      WalkGrows(k, rng, style, coords, i + 1, stop, q);
      GrowsTrans(k, pr.plan, q.plan, Walk(k, rng, style, coords, i + 1, stop, q).plan);
    }
  }

  lemma {:induction false} BandsGrow(k: Kernel, rng: Rng, style: Style, bases: seq<Region>, t: nat, pr: Progress)
    requires UnionLaws(k)
    ensures Bands(k, rng, style, bases, t, pr).Ok? ==>
      Grows(k, pr.plan, Bands(k, rng, style, bases, t, pr).value.plan) &&
      pr.cursor <= Bands(k, rng, style, bases, t, pr).value.cursor
    decreases |bases| - t
  {
    if t < |bases| {
      var b := Band(k, rng, style, bases[t], pr);
      if b.Ok? {
        var q := b.value;
        if !k.isEmpty(bases[t]) {
          var coords := k.ring(bases[t]);
          var s := Draw(rng, pr.cursor, |coords|);
          WalkGrows(k, rng, style, coords, s, s + |coords| - 1, Progress(pr.plan, pr.cursor + 1));
        }
        BandsGrow(k, rng, style, bases, t + 1, q);
        if Bands(k, rng, style, bases, t + 1, q).Ok? {
          GrowsTrans(k, pr.plan, q.plan, Bands(k, rng, style, bases, t + 1, q).value.plan);
        }
      }
    }
  }

  /**
   * `generate_plan` only grows its accumulators: whatever met the given
   * shadows meets the returned ones, and given buildings are kept and grow.
   */
  lemma PlanGrows(k: Kernel, rng: Rng, cursor: nat, bases: seq<Region>, shadows: Region, buildings: Option<Region>, style: Style)
    requires UnionLaws(k)
    ensures var r := PlanRun(k, rng, cursor, bases, shadows, buildings, style);
      r.Ok? ==> Grows(k, Plan(buildings, shadows), r.value.plan) && cursor <= r.value.cursor
  {
    BandsGrow(k, rng, style, Shuffled(bases, rng, cursor), 0, Progress(Plan(buildings, shadows), cursor + ShuffleDraws(|bases|)));
  }

  /** `generate_plan` fails only on a non-empty band whose boundary has no coordinates. */
  lemma {:induction false} BandsFailure(k: Kernel, rng: Rng, style: Style, bases: seq<Region>, t: nat, pr: Progress)
    ensures Bands(k, rng, style, bases, t, pr).Err? ==>
      Bands(k, rng, style, bases, t, pr).failure == EmptyChoice &&
      exists u :: t <= u < |bases| && !k.isEmpty(bases[u]) && |k.ring(bases[u])| == 0
    ensures RingLaw(k) ==> Bands(k, rng, style, bases, t, pr).Ok?
    decreases |bases| - t
  {
    if t < |bases| {
      var b := Band(k, rng, style, bases[t], pr);
      if b.Ok? {
        BandsFailure(k, rng, style, bases, t + 1, b.value);
      }
    }
  }

  // ---------------------------------------------------------------------
  // The imperative placement
  // ---------------------------------------------------------------------

  /** `generate_plan(collection_buffered, overall_shadows, overall_buildings, ...)`; the bands are shuffled in place. */
  method GeneratePlan(k: Kernel, rng: Rng, cursor: nat, collectionBuffered: array<Region>, overallShadows: Region,
                      overallBuildings: Option<Region>, style: Style)
    returns (result: Result<Progress>)
    modifies collectionBuffered
    ensures collectionBuffered[..] == Shuffled(old(collectionBuffered[..]), rng, cursor)
    ensures result == PlanRun(k, rng, cursor, old(collectionBuffered[..]), overallShadows, overallBuildings, style)
  {
    var next := Shuffle(collectionBuffered, rng, cursor);
    ghost var shuffled := collectionBuffered[..];
    var pr := Progress(Plan(overallBuildings, overallShadows), next);
    ghost var start := pr;
    var t := 0;
    while t < collectionBuffered.Length
      invariant 0 <= t <= collectionBuffered.Length
      invariant collectionBuffered[..] == shuffled
      invariant Bands(k, rng, style, shuffled, t, pr) == Bands(k, rng, style, shuffled, 0, start)
    {
      assert collectionBuffered[t] == shuffled[t];
      var band := PlaceBand(k, rng, style, collectionBuffered[t], pr);
      if band.Err? {
        return Err(band.failure);
      }
      pr := band.value;
      t := t + 1;
    }
    return Ok(pr);
  }

  /** One iteration of the band loop: the walk around one band. */
  method PlaceBand(k: Kernel, rng: Rng, style: Style, ourBase: Region, pr: Progress) returns (result: Result<Progress>)
    ensures result == Band(k, rng, style, ourBase, pr)
  {
    if k.isEmpty(ourBase) {
      return Ok(pr);
    }
    var buildingCoords := k.ring(ourBase);
    var len := |buildingCoords|;
    if len == 0 {
      return Err(EmptyChoice);
    }
    var s := Draw(rng, pr.cursor, len);
    var state := Progress(pr.plan, pr.cursor + 1);
    ghost var first := state;
    var i := s;
    while i < s + len - 1
      invariant s <= i <= s + len - 1
      invariant Walk(k, rng, style, buildingCoords, i, s + len - 1, state) == Walk(k, rng, style, buildingCoords, s, s + len - 1, first)
    {
      state := WalkEdge(k, rng, style, buildingCoords, i, state);
      i := i + 1;
    }
    return Ok(state);
  }

  /** One iteration of the walk: the slots of the pair of coordinates i and i + 1. */
  method WalkEdge(k: Kernel, rng: Rng, style: Style, buildingCoords: seq<Point>, i: nat, pr: Progress) returns (result: Progress)
    requires |buildingCoords| > 0
    ensures result == Edge(k, rng, style, buildingCoords, i, pr)
  {
    var len := |buildingCoords|;
    var startPoint := buildingCoords[i % len];
    var endPoint := buildingCoords[(i + 1) % len];
    var angle := Angle(k, style, startPoint, endPoint);
    var n := Trunc(k.pointDistance(startPoint, endPoint) / 3.0);
    assert n == SlotCount(k, startPoint, endPoint);
    result := pr;
    if n > 0 {
      result := PlaceEdge(k, rng, style, angle, startPoint, endPoint, n, pr);
    }
  }

  /** The slot loop of one edge. */
  method PlaceEdge(k: Kernel, rng: Rng, style: Style, angle: real, startPoint: Point, endPoint: Point, n: nat, pr: Progress)
    returns (result: Progress)
    requires n > 0
    ensures result == Slots(k, rng, style, angle, startPoint, endPoint, n, 0, pr)
  {
    var overallBuildings, overallShadows, cursor := pr.plan.buildings, pr.plan.shadows, pr.cursor;
    for j := 0 to n
      invariant Slots(k, rng, style, angle, startPoint, endPoint, n, j, Progress(Plan(overallBuildings, overallShadows), cursor)) ==
        Slots(k, rng, style, angle, startPoint, endPoint, n, 0, pr)
    {
      var offset := RandInt(rng, cursor, 0, n - 1);
      cursor := cursor + 1;
      var center := SlotCentre(startPoint, endPoint, n, j, offset);
      var building := k.building(style.length, style.width, angle, center);
      var shadow := k.shadow(style.length, style.width, angle, center, style.shadowH);
      if NoBuildings(k, overallBuildings) {
        if k.intersects(overallShadows, building) {
          continue;
        } else {
          overallBuildings := Some(building);
          overallShadows := k.union(overallShadows, shadow);
        }
      } else if k.intersects(overallShadows, building) || k.intersects(overallBuildings.value, shadow) {
        continue;
      } else {
        overallShadows := k.union(overallShadows, shadow);
        overallBuildings := Some(k.union(overallBuildings.value, building));
      }
    }
    return Progress(Plan(overallBuildings, overallShadows), cursor);
  }
}
