/**
 * The division pipeline (`generate_division.py`): one division attempt
 * places entrances, grows circles, joins them with roads and cuts the base
 * into lots; the search repeats attempts a number of times fixed by the
 * base's area and keeps the connected attempt with the smallest ratio
 * between its largest and smallest lot; the plan ensemble runs the greedy
 * placement twice per plan, at offsets -10 and -20.
 */
module Division {
  import opened Geometry
  import Sorting
  import Entrances
  import Collection
  import Roads
  import Smoothing
  import Sections
  import Plan

  /** The radii `get_best_divisions` passes to `generate_division` (its defaults). */
  const MinR: int := 60
  const MaxR: int := 80
  /** The grid density and circle resolution `generate_division` passes to `generate_collection`. */
  const GridDensity: nat := 20
  const CircleResolution: nat := 8
  /** The number of entrances `get_entrances` is asked for by default. */
  const EntranceCount: int := 2
  /** The road half-width: every road is buffered by 4. */
  const RoadBuffer: real := 4.0
  /** `smooth_polygon`'s default `min_length`. */
  const SmoothLength: real := 20.0
  /** The initial `area_rate`. */
  const InitialRate: real := 9999.0

  /** `(new_collection, cascaded_roads)`: the smoothed lots and the circulation footprint. */
  datatype Division = Division(lots: seq<Region>, roads: Region)

  datatype Attempt = Attempt(division: Division, cursor: nat)

  // ---------------------------------------------------------------------
  // One attempt: generate_division
  // ---------------------------------------------------------------------

  /** `[road.buffer(4) for road in roads]`. */
  function BufferedRoads(k: Kernel, roads: seq<Region>): (rs: seq<Region>)
    ensures |rs| == |roads|
    ensures forall t :: 0 <= t < |rs| ==> rs[t] == k.buffer(roads[t], RoadBuffer)
  {
    seq(|roads|, t requires 0 <= t < |roads| => k.buffer(roads[t], RoadBuffer))
  }

  /** `cascaded_union([cascaded_union(buffered roads), cascaded_union(entrances)])`. */
  function Footprint(k: Kernel, roads: seq<Region>, entrances: seq<Region>): Region {
    UnionAll(k, [UnionAll(k, BufferedRoads(k, roads)), UnionAll(k, entrances)])
  }

  /** The circulation footprint meets a region exactly when a buffered road or an entrance disc does. */
  lemma FootprintMeets(k: Kernel, roads: seq<Region>, entrances: seq<Region>, c: Region)
    requires UnionLaws(k)
    ensures k.intersects(Footprint(k, roads, entrances), c) <==>
      (exists t :: 0 <= t < |roads| && k.intersects(k.buffer(roads[t], RoadBuffer), c)) ||
      (exists t :: 0 <= t < |entrances| && k.intersects(entrances[t], c))
  {
    var br := BufferedRoads(k, roads);
    var parts := [UnionAll(k, br), UnionAll(k, entrances)];
    UnionAllIntersects(k, parts, c);
    UnionAllIntersects(k, br, c);
    UnionAllIntersects(k, entrances, c);
    assert (exists i :: 0 <= i < 2 && k.intersects(parts[i], c)) <==>
      k.intersects(parts[0], c) || k.intersects(parts[1], c);
  }

  /** The lots of the residual: itself when it is one Polygon, otherwise its pieces. */
  function LotsOf(k: Kernel, place: Region): seq<Region> {
    if k.kind(place) == PolygonKind then [place] else k.parts(place)
  }

  function Areas(k: Kernel, lots: seq<Region>): (areas: seq<real>)
    ensures |areas| == |lots|
    ensures forall t :: 0 <= t < |lots| ==> areas[t] == k.area(lots[t])
  {
    seq(|lots|, t requires 0 <= t < |lots| => k.area(lots[t]))
  }

  /** `sorted(lots, key=lambda geom: geom.area)`: lot t of the result is lot idx[t] of the input. */
  function SortByArea(k: Kernel, lots: seq<Region>): (sorted: seq<Region>)
    ensures |sorted| == |lots|
  {
    var idx := Sorting.SortIndices(Areas(k, lots), false);
    Sorting.SortIndicesSpec(Areas(k, lots), false);
    seq(|idx|, t requires 0 <= t < |idx| => lots[idx[t]])
  }

  /**
   * The sort is a stable rearrangement: the result lists the lots by a
   * permutation of their positions, in ascending order of area, with lots of
   * equal area in their original order.
   */
  lemma SortByAreaSpec(k: Kernel, lots: seq<Region>)
    ensures var idx := Sorting.SortIndices(Areas(k, lots), false);
      var sorted := SortByArea(k, lots);
      && |idx| == |lots|
      && (forall x :: x in idx <==> 0 <= x < |lots|)
      && (forall t :: 0 <= t < |idx| ==> idx[t] < |lots| && sorted[t] == lots[idx[t]])
      && (forall a, b :: 0 <= a < b < |sorted| ==> k.area(sorted[a]) <= k.area(sorted[b]))
      && (forall a, b :: 0 <= a < b < |sorted| && k.area(sorted[a]) == k.area(sorted[b]) ==> idx[a] < idx[b])
  {
    var areas := Areas(k, lots);
    var idx := Sorting.SortIndices(areas, false);
    Sorting.SortIndicesSpec(areas, false);
    var sorted := SortByArea(k, lots);
    forall a, b | 0 <= a < b < |sorted|
      ensures k.area(sorted[a]) <= k.area(sorted[b])
      ensures k.area(sorted[a]) == k.area(sorted[b]) ==> idx[a] < idx[b]
    {
      assert Sorting.Before(areas, false, idx[a], idx[b]);
    }
  }

  /** `[smooth_polygon(geom) for geom in lots]`, failing if any lot fails. */
  function SmoothAll(k: Kernel, lots: seq<Region>): Result<seq<Region>> {
    if lots == [] then Ok([])
    else
      match SmoothAll(k, lots[..|lots| - 1])
      case Err(f) => Err(f)
      case Ok(prev) =>
        match Smoothing.Smoothed(k, lots[|lots| - 1], SmoothLength, true)
        case Err(f) => Err(f)
        case Ok(g) => Ok(prev + [g])
  }

  /** Every lot is smoothed exactly once and in place: lot t of the result is lot t smoothed. */
  lemma {:induction false} SmoothAllSpec(k: Kernel, lots: seq<Region>)
    ensures SmoothAll(k, lots).Err? <==>
      exists t :: 0 <= t < |lots| && Smoothing.Smoothed(k, lots[t], SmoothLength, true).Err?
    ensures SmoothAll(k, lots).Ok? ==>
      |SmoothAll(k, lots).value| == |lots| &&
      forall t :: 0 <= t < |lots| ==> Smoothing.Smoothed(k, lots[t], SmoothLength, true) == Ok(SmoothAll(k, lots).value[t])
  {
    if lots != [] {
      var init := lots[..|lots| - 1];
      SmoothAllSpec(k, init);
      var r := SmoothAll(k, lots);
      if (exists t :: 0 <= t < |init| && Smoothing.Smoothed(k, init[t], SmoothLength, true).Err?) {
        var t :| 0 <= t < |init| && Smoothing.Smoothed(k, init[t], SmoothLength, true).Err?;
        assert lots[t] == init[t];
      }
      if r.Ok? {
        var prev := SmoothAll(k, init).value;
        forall t | 0 <= t < |lots| ensures Smoothing.Smoothed(k, lots[t], SmoothLength, true) == Ok(r.value[t]) {
          if t < |init| {
            assert lots[t] == init[t];
            assert r.value[t] == prev[t];
          }
        }
      } else if SmoothAll(k, init).Ok? {
        assert Smoothing.Smoothed(k, lots[|lots| - 1], SmoothLength, true).Err?;
      }
    }
  }

  /** `distance = sqrt(base.area) / 2`, the spacing asked of the entrances. */
  function EntranceDistance(k: Kernel, base: Region): real {
    k.sqrt(k.area(base)) / 2.0
  }

  /** `2 * max_r`, the longest road between two circle centres. */
  function RoadDistance(maxR: int): real {
    2.0 * maxR as real
  }

  /**
   * The stages after the circles are grown: roads between the circles, the
   * circulation footprint, the residual lots sorted by area, then smoothed.
   */
  function Layout(k: Kernel, base: Region, maxR: int, entrances: seq<Region>, collection: seq<Region>): Result<Division> {
    var footprint := Footprint(k, Roads.RoadList(k, base, collection, RoadDistance(maxR)), entrances);
    match SmoothAll(k, SortByArea(k, LotsOf(k, k.difference(base, footprint))))
    case Err(f) => Err(f)
    case Ok(smoothed) => Ok(Division(smoothed, footprint))
  }

  /** The stages after the entrances are placed: the circles grown from them, then the layout. */
  function FromEntrances(k: Kernel, rng: Rng, cursor: nat, base: Region, minR: int, maxR: int, entrances: seq<Region>): Result<Attempt> {
    match Collection.CollectionRun(k, rng, cursor, base, minR, maxR, GridDensity, CircleResolution, entrances)
    case Err(f) => Err(f)
    case Ok(grown) =>
      if k.area(base) == 0.0 then Err(ZeroBaseArea)
      else match Layout(k, base, maxR, entrances, grown.collection)
        case Err(f) => Err(f)
        case Ok(d) => Ok(Attempt(d, grown.cursor))
  }

  /** `generate_division(base, min_r, max_r)` from random position `cursor`. */
  function DivisionRun(k: Kernel, rng: Rng, cursor: nat, base: Region, minR: int, maxR: int): Result<Attempt> {
    match Entrances.EntranceZones(k, k.ring(base), EntranceCount, EntranceDistance(k, base))
    case Err(f) => Err(f)
    case Ok(entrances) => FromEntrances(k, rng, cursor, base, minR, maxR, entrances)
  }

  /**
   * The layout fails exactly when smoothing one of the sorted lots fails;
   * otherwise its footprint is that of the roads and entrances, and lot t
   * of the division is sorted lot t smoothed.
   */
  lemma LayoutSpec(k: Kernel, base: Region, maxR: int, entrances: seq<Region>, collection: seq<Region>)
    ensures var roads := Roads.RoadList(k, base, collection, RoadDistance(maxR));
      var lots := SortByArea(k, LotsOf(k, k.difference(base, Footprint(k, roads, entrances))));
      && (Layout(k, base, maxR, entrances, collection).Err? <==>
            exists t :: 0 <= t < |lots| && Smoothing.Smoothed(k, lots[t], SmoothLength, true).Err?)
      && (Layout(k, base, maxR, entrances, collection).Ok? ==>
            && Layout(k, base, maxR, entrances, collection).value.roads == Footprint(k, roads, entrances)
            && |Layout(k, base, maxR, entrances, collection).value.lots| == |lots|
            && forall t :: 0 <= t < |lots| ==>
                 Smoothing.Smoothed(k, lots[t], SmoothLength, true) == Ok(Layout(k, base, maxR, entrances, collection).value.lots[t]))
  {
    var roads := Roads.RoadList(k, base, collection, RoadDistance(maxR));
    SmoothAllSpec(k, SortByArea(k, LotsOf(k, k.difference(base, Footprint(k, roads, entrances)))));
  }

  /**
   * An attempt on a base without boundary vertices fails with the entrance
   * error; on a base of area zero it fails at the coverage ratio unless the
   * growth failed first; a successful attempt's footprint covers every
   * entrance disc.
   */
  lemma DivisionRunSpec(k: Kernel, rng: Rng, cursor: nat, base: Region, minR: int, maxR: int, c: Region)
    requires UnionLaws(k)
    ensures |k.ring(base)| == 0 ==> DivisionRun(k, rng, cursor, base, minR, maxR) == Err(NoBoundaryEdge)
    ensures DivisionRun(k, rng, cursor, base, minR, maxR).Ok? ==> k.area(base) != 0.0
    ensures |k.ring(base)| > 0 && k.area(base) == 0.0 ==>
      var entrances := Entrances.EntranceZones(k, k.ring(base), EntranceCount, EntranceDistance(k, base));
      var grown := Collection.CollectionRun(k, rng, cursor, base, minR, maxR, GridDensity, CircleResolution, entrances.value);
      DivisionRun(k, rng, cursor, base, minR, maxR) == if grown.Err? then Err(grown.failure) else Err(ZeroBaseArea)
    ensures DivisionRun(k, rng, cursor, base, minR, maxR).Ok? ==>
      var entrances := Entrances.EntranceZones(k, k.ring(base), EntranceCount, EntranceDistance(k, base));
      entrances.Ok? &&
      forall t :: 0 <= t < |entrances.value| && k.intersects(entrances.value[t], c) ==>
        k.intersects(DivisionRun(k, rng, cursor, base, minR, maxR).value.division.roads, c)
  {
    var entrances := Entrances.EntranceZones(k, k.ring(base), EntranceCount, EntranceDistance(k, base));
    if DivisionRun(k, rng, cursor, base, minR, maxR).Ok? {
      var grown := Collection.CollectionRun(k, rng, cursor, base, minR, maxR, GridDensity, CircleResolution, entrances.value);
      var roads := Roads.RoadList(k, base, grown.value.collection, RoadDistance(maxR));
      LayoutSpec(k, base, maxR, entrances.value, grown.value.collection);
      FootprintMeets(k, roads, entrances.value, c);
    }
  }

  /** `check_roads_conected(cascaded_roads)`: the footprint is a single Polygon. */
  predicate RoadsConnected(k: Kernel, roads: Region) {
    k.kind(roads) == PolygonKind
  }

  // ---------------------------------------------------------------------
  // The search: get_best_divisions
  // ---------------------------------------------------------------------

  /** `get_max_attemps(base)`: the attempt budget by area bucket. */
  function MaxAttempts(area: real): (n: nat)
    ensures n == 5 <==> area < 10000.0
    ensures n == 10 <==> 10000.0 <= area < 50000.0
    ensures n == 15 <==> 50000.0 <= area < 100000.0
    ensures n == 25 <==> 100000.0 <= area
  {
    if area < 10000.0 then 5
    else if area < 50000.0 then 10
    else if area < 100000.0 then 15
    else 25
  }

  /** A larger base never gets fewer attempts. */
  lemma MaxAttemptsMonotone(a: real, b: real)
    requires a <= b
    ensures 5 <= MaxAttempts(a) <= MaxAttempts(b) <= 25
  {
  }

  function MaxOf(xs: seq<real>): (m: real)
    requires |xs| > 0
    ensures m in xs && forall t :: 0 <= t < |xs| ==> xs[t] <= m
  {
    if |xs| == 1 then xs[0]
    else
      var rest := MaxOf(xs[1..]);
      assert forall t :: 1 <= t < |xs| ==> xs[t] == xs[1..][t - 1];
      if rest > xs[0] then rest else xs[0]
  }

  function MinOf(xs: seq<real>): (m: real)
    requires |xs| > 0
    ensures m in xs && forall t :: 0 <= t < |xs| ==> m <= xs[t]
  {
    if |xs| == 1 then xs[0]
    else
      var rest := MinOf(xs[1..]);
      assert forall t :: 1 <= t < |xs| ==> xs[t] == xs[1..][t - 1];
      if rest < xs[0] then rest else xs[0]
  }

  /** `max(areas) / min(areas)`: ValueError on no lots, ZeroDivisionError when the smallest area is zero. */
  function AreaRate(k: Kernel, lots: seq<Region>): Result<real> {
    var areas := Areas(k, lots);
    if |areas| == 0 then Err(EmptyLotList)
    else if MinOf(areas) == 0.0 then Err(ZeroMinArea)
    else Ok(MaxOf(areas) / MinOf(areas))
  }

  /**
   * For lots of non-negative area the ratio is defined exactly when there
   * is a lot and none has area zero, and it is then at least 1.
   */
  lemma AreaRateSpec(k: Kernel, lots: seq<Region>)
    requires forall t :: 0 <= t < |lots| ==> k.area(lots[t]) >= 0.0
    ensures AreaRate(k, lots) == Err(EmptyLotList) <==> |lots| == 0
    ensures AreaRate(k, lots) == Err(ZeroMinArea) <==> |lots| > 0 && exists t :: 0 <= t < |lots| && k.area(lots[t]) == 0.0
    ensures AreaRate(k, lots).Ok? ==> AreaRate(k, lots).value >= 1.0
  {
    if |lots| > 0 {
      var areas := Areas(k, lots);
      MinOfZero(areas);
      if exists t :: 0 <= t < |lots| && k.area(lots[t]) == 0.0 {
        var t :| 0 <= t < |lots| && k.area(lots[t]) == 0.0;
        assert areas[t] == 0.0;
      }
      if MinOf(areas) != 0.0 {
        RatioAtLeastOne(areas);
      }
    }
  }

  /** For non-negative values the minimum is zero exactly when some value is. */
  lemma MinOfZero(xs: seq<real>)
    requires |xs| > 0 && forall t :: 0 <= t < |xs| ==> xs[t] >= 0.0
    ensures MinOf(xs) >= 0.0
    ensures MinOf(xs) == 0.0 <==> exists t :: 0 <= t < |xs| && xs[t] == 0.0
  {
    var lo := MinOf(xs);
    var t0 :| 0 <= t0 < |xs| && xs[t0] == lo;
  }

  lemma RatioAtLeastOne(xs: seq<real>)
    requires |xs| > 0 && MinOf(xs) > 0.0
    ensures MaxOf(xs) / MinOf(xs) >= 1.0
  {
    var lo, hi := MinOf(xs), MaxOf(xs);
    var t0 :| 0 <= t0 < |xs| && xs[t0] == lo;
    QuotientAtLeastOne(hi, lo);
  }

  lemma QuotientAtLeastOne(hi: real, lo: real)
    requires hi >= lo > 0.0
    ensures hi / lo >= 1.0
  {
    var q := hi / lo;
    assert q * lo == hi;
  }

  /** One attempt's outcome: its division, connectivity, ratio, and the random position after it. */
  datatype Outcome = Outcome(division: Division, connected: bool, rate: real, cursor: nat)

  /** The loop body before its update: one division and its ratio. */
  function AttemptAt(k: Kernel, rng: Rng, base: Region, cursor: nat): Result<Outcome> {
    match DivisionRun(k, rng, cursor, base, MinR, MaxR)
    case Err(f) => Err(f)
    case Ok(att) =>
      match AreaRate(k, att.division.lots)
      case Err(f) => Err(f)
      case Ok(r) => Ok(Outcome(att.division, RoadsConnected(k, att.division.roads), r, att.cursor))
  }

  function Attempts(k: Kernel, rng: Rng, base: Region): nat -> Result<Outcome> {
    (c: nat) => AttemptAt(k, rng, base, c)
  }

  /** The search state: the best division so far (`divisions`, `cascaded_roads`), `area_rate`, `timeout`. */
  datatype Search = Search(best: Option<Division>, rate: real, timeout: nat, cursor: nat)

  /** The loop's update: a connected attempt with a strictly smaller ratio replaces the best. */
  function Update(s: Search, o: Outcome): (q: Search)
    ensures q.timeout == s.timeout + 1 && q.cursor == o.cursor
    ensures q.rate <= s.rate
    ensures q.best != s.best || q.rate != s.rate ==> o.connected && o.rate < s.rate && q.best == Some(o.division) && q.rate == o.rate
    ensures o.connected ==> q.rate <= o.rate
  {
    if o.connected && o.rate < s.rate then Search(Some(o.division), o.rate, s.timeout + 1, o.cursor)
    else Search(s.best, s.rate, s.timeout + 1, o.cursor)
  }

  /** The remaining attempts from state s up to the budget. */
  function SearchFrom(attempt: nat -> Result<Outcome>, limit: nat, s: Search): Result<Search>
    decreases limit - s.timeout
  {
    if s.timeout >= limit then Ok(s)
    else
      match attempt(s.cursor)
      case Err(f) => Err(f)
      case Ok(o) => SearchFrom(attempt, limit, Update(s, o))
  }

  /** The outcomes of the remaining attempts, in order (up to the first failure). */
  function Trace(attempt: nat -> Result<Outcome>, limit: nat, s: Search): seq<Outcome>
    decreases limit - s.timeout
  {
    if s.timeout >= limit then []
    else
      match attempt(s.cursor)
      case Err(_) => []
      case Ok(o) => [o] + Trace(attempt, limit, Update(s, o))
  }

  /** `get_best_divisions(base)` from random position `cursor`. */
  function BestDivisions(k: Kernel, rng: Rng, cursor: nat, base: Region): Result<Search> {
    SearchFrom(Attempts(k, rng, base), MaxAttempts(k.area(base)), Search(None, InitialRate, 0, cursor))
  }

  /** A search that finishes has run exactly the budget of attempts. */
  lemma {:induction false} SearchCount(attempt: nat -> Result<Outcome>, limit: nat, s: Search)
    requires s.timeout <= limit
    requires SearchFrom(attempt, limit, s).Ok?
    ensures SearchFrom(attempt, limit, s).value.timeout == limit
    ensures |Trace(attempt, limit, s)| == limit - s.timeout
    decreases limit - s.timeout
  {
    if s.timeout < limit {
      SearchCount(attempt, limit, Update(s, attempt(s.cursor).value));
    }
  }

  /** The best ratio never increases, and it is at most the ratio of every connected attempt. */
  lemma {:induction false} SearchRate(attempt: nat -> Result<Outcome>, limit: nat, s: Search)
    requires SearchFrom(attempt, limit, s).Ok?
    ensures SearchFrom(attempt, limit, s).value.rate <= s.rate
    ensures forall t :: 0 <= t < |Trace(attempt, limit, s)| && Trace(attempt, limit, s)[t].connected ==>
      SearchFrom(attempt, limit, s).value.rate <= Trace(attempt, limit, s)[t].rate
    decreases limit - s.timeout
  {
    if s.timeout < limit {
      var o := attempt(s.cursor).value;
      var q := Update(s, o);
      SearchRate(attempt, limit, q);
      var tr := Trace(attempt, limit, s);
      assert tr == [o] + Trace(attempt, limit, q);
    }
  }

  /**
   * Final state r either has s's best and ratio, or holds the earliest
   * outcome of trace tr that is connected with ratio r.rate, below s.rate.
   */
  predicate KeptOrEarliest(s: Search, r: Search, tr: seq<Outcome>) {
    (r.best == s.best && r.rate == s.rate) ||
    exists t :: 0 <= t < |tr| && tr[t].connected && tr[t].rate == r.rate && r.rate < s.rate &&
      r.best == Some(tr[t].division) &&
      forall u :: 0 <= u < t && tr[u].connected ==> tr[u].rate > r.rate
  }

  /**
   * The search either keeps its starting best, or keeps the earliest
   * connected attempt whose ratio is the final ratio, below the starting one.
   */
  lemma {:induction false} SearchBest(attempt: nat -> Result<Outcome>, limit: nat, s: Search)
    requires SearchFrom(attempt, limit, s).Ok?
    ensures KeptOrEarliest(s, SearchFrom(attempt, limit, s).value, Trace(attempt, limit, s))
    decreases limit - s.timeout
  {
    if s.timeout < limit {
      var o := attempt(s.cursor).value;
      var q := Update(s, o);
      SearchBest(attempt, limit, q);
      SearchRate(attempt, limit, q);
      var r := SearchFrom(attempt, limit, s).value;
      var rest := Trace(attempt, limit, q);
      var tr := Trace(attempt, limit, s);
      assert tr == [o] + rest;
      if r.best == q.best && r.rate == q.rate {
        if q.best != s.best || q.rate != s.rate {
          assert tr[0] == o;
        }
      } else {
        var t :| 0 <= t < |rest| && rest[t].connected && rest[t].rate == r.rate && r.rate < q.rate &&
          r.best == Some(rest[t].division) &&
          forall u :: 0 <= u < t && rest[u].connected ==> rest[u].rate > r.rate;
        assert tr[t + 1] == rest[t];
        forall u | 0 <= u < t + 1 && tr[u].connected ensures tr[u].rate > r.rate {
          if u > 0 {
            assert tr[u] == rest[u - 1];
          }
        }
      }
    }
  }

  /** Every outcome reports the connectivity and the ratio of its own division. */
  ghost predicate Faithful(k: Kernel, attempt: nat -> Result<Outcome>) {
    forall c: nat :: attempt(c).Ok? ==>
      (attempt(c).value.connected <==> RoadsConnected(k, attempt(c).value.division.roads)) &&
      AreaRate(k, attempt(c).value.division.lots) == Ok(attempt(c).value.rate)
  }

  lemma AttemptsFaithful(k: Kernel, rng: Rng, base: Region)
    ensures Faithful(k, Attempts(k, rng, base))
  {
  }

  /** A state whose kept division is connected and carries the kept ratio, below the starting one. */
  ghost predicate Kept(k: Kernel, s: Search) {
    s.best.Some? ==>
      RoadsConnected(k, s.best.value.roads) && s.rate < InitialRate && AreaRate(k, s.best.value.lots) == Ok(s.rate)
  }

  lemma {:induction false} SearchKeeps(k: Kernel, attempt: nat -> Result<Outcome>, limit: nat, s: Search)
    requires Faithful(k, attempt)
    requires Kept(k, s) && s.rate <= InitialRate
    requires SearchFrom(attempt, limit, s).Ok?
    ensures Kept(k, SearchFrom(attempt, limit, s).value)
    decreases limit - s.timeout
  {
    if s.timeout < limit {
      SearchKeeps(k, attempt, limit, Update(s, attempt(s.cursor).value));
    }
  }

  /**
   * From the initial state, with faithful outcomes: the search runs the
   * whole budget; a kept division is connected, its ratio is below 9999 and
   * is the ratio of the earliest connected attempt that no connected attempt
   * beats; nothing is kept exactly when no connected attempt reaches below 9999.
   */
  lemma InitialSearch(k: Kernel, attempt: nat -> Result<Outcome>, limit: nat, cursor: nat)
    requires Faithful(k, attempt)
    requires SearchFrom(attempt, limit, Search(None, InitialRate, 0, cursor)).Ok?
    ensures var r := SearchFrom(attempt, limit, Search(None, InitialRate, 0, cursor)).value;
      var tr := Trace(attempt, limit, Search(None, InitialRate, 0, cursor));
      && r.timeout == limit == |tr|
      && (r.best.Some? ==>
            RoadsConnected(k, r.best.value.roads) && r.rate < InitialRate && AreaRate(k, r.best.value.lots) == Ok(r.rate))
      && (r.best.Some? ==>
            exists t :: 0 <= t < |tr| && tr[t].connected && r.best == Some(tr[t].division) && tr[t].rate == r.rate &&
              (forall u :: 0 <= u < t && tr[u].connected ==> r.rate < tr[u].rate))
      && (forall u :: 0 <= u < |tr| && tr[u].connected ==> r.rate <= tr[u].rate)
      && (r.best.None? <==> forall t :: 0 <= t < |tr| && tr[t].connected ==> tr[t].rate >= InitialRate)
  {
    var s := Search(None, InitialRate, 0, cursor);
    SearchCount(attempt, limit, s);
    SearchRate(attempt, limit, s);
    SearchBest(attempt, limit, s);
    SearchKeeps(k, attempt, limit, s);
  }

  /**
   * `get_best_divisions` calls `generate_division` `get_max_attemps(base)`
   * times, and its result is as InitialSearch describes for those attempts.
   */
  lemma BestDivisionsSpec(k: Kernel, rng: Rng, cursor: nat, base: Region)
    requires BestDivisions(k, rng, cursor, base).Ok?
    ensures var r := BestDivisions(k, rng, cursor, base).value;
      var tr := Trace(Attempts(k, rng, base), MaxAttempts(k.area(base)), Search(None, InitialRate, 0, cursor));
      && r.timeout == MaxAttempts(k.area(base)) == |tr|
      && (r.best.Some? ==>
            RoadsConnected(k, r.best.value.roads) && r.rate < InitialRate && AreaRate(k, r.best.value.lots) == Ok(r.rate))
      && (forall u :: 0 <= u < |tr| && tr[u].connected ==> r.rate <= tr[u].rate)
      && (r.best.None? <==> forall t :: 0 <= t < |tr| && tr[t].connected ==> tr[t].rate >= InitialRate)
  {
    AttemptsFaithful(k, rng, base);
    InitialSearch(k, Attempts(k, rng, base), MaxAttempts(k.area(base)), cursor);
  }

  // ---------------------------------------------------------------------
  // The plan ensemble: generate_plans_by_division
  // ---------------------------------------------------------------------

  /** `range(-10, -30, -10)`. */
  const Offsets: seq<real> := [-10.0, -20.0]

  /** The shadow seed: the outside of the base (against its envelope grown by 1) and the circulation footprint. */
  function ShadowSeed(k: Kernel, base: Region, roads: Region): Region {
    UnionAll(k, [k.symDiff(base, k.buffer(k.envelope(base), 1.0)), roads])
  }

  /** The placement passes over offsets i.., each feeding its accumulators to the next. */
  function Passes(k: Kernel, rng: Rng, style: Plan.Style, divisions: seq<Region>, i: nat, pr: Plan.Progress): Result<Plan.Progress>
    decreases |Offsets| - i
  {
    if i >= |Offsets| then Ok(pr)
    else
      var bands := Sections.Sections(k, divisions, Offsets[i]);
      match Plan.PlanRun(k, rng, pr.cursor, bands, pr.plan.shadows, pr.plan.buildings, style)
      case Err(f) => Err(f)
      case Ok(q) => Passes(k, rng, style, divisions, i + 1, q)
  }

  /** One plan: no buildings and the fresh shadow seed, then the two passes. */
  function OnePlan(k: Kernel, rng: Rng, cursor: nat, base: Region, divisions: seq<Region>, roads: Region, style: Plan.Style): Result<Plan.Progress> {
    Passes(k, rng, style, divisions, 0, Plan.Progress(Plan.Plan(None, ShadowSeed(k, base, roads)), cursor))
  }

  datatype Plans = Plans(plans: seq<Option<Region>>, cursor: nat)

  /** The first n plans of `generate_plans_by_division`. */
  function PlansRun(k: Kernel, rng: Rng, cursor: nat, base: Region, divisions: seq<Region>, roads: Region,
                    style: Plan.Style, n: nat): Result<Plans>
  {
    if n == 0 then Ok(Plans([], cursor))
    else
      match PlansRun(k, rng, cursor, base, divisions, roads, style, n - 1)
      case Err(f) => Err(f)
      case Ok(ps) =>
        match OnePlan(k, rng, ps.cursor, base, divisions, roads, style)
        case Err(f) => Err(f)
        case Ok(q) => Ok(Plans(ps.plans + [q.plan.buildings], q.cursor))
  }

  /**
   * A plan runs the -10 pass from no buildings and the fresh seed, then
   * the -20 pass from exactly the accumulators the first pass left.
   */
  lemma OnePlanPasses(k: Kernel, rng: Rng, cursor: nat, base: Region, divisions: seq<Region>, roads: Region, style: Plan.Style)
    ensures var first := Plan.PlanRun(k, rng, cursor, Sections.Sections(k, divisions, -10.0), ShadowSeed(k, base, roads), None, style);
      OnePlan(k, rng, cursor, base, divisions, roads, style) ==
        if first.Err? then Err(first.failure)
        else
          var second := Plan.PlanRun(k, rng, first.value.cursor, Sections.Sections(k, divisions, -20.0),
                                     first.value.plan.shadows, first.value.plan.buildings, style);
          if second.Err? then Err(second.failure) else Ok(second.value)
  {
  }

  /**
   * Each plan's final shadows cover both the outside of the base and the
   * circulation footprint, so no building of the plan is placed where it
   * would meet either.
   */
  lemma OnePlanAvoidsRoads(k: Kernel, rng: Rng, cursor: nat, base: Region, divisions: seq<Region>, roads: Region,
                           style: Plan.Style, c: Region)
    requires UnionLaws(k)
    requires OnePlan(k, rng, cursor, base, divisions, roads, style).Ok?
    ensures var final := OnePlan(k, rng, cursor, base, divisions, roads, style).value.plan;
      (k.intersects(roads, c) ==> k.intersects(final.shadows, c)) &&
      (k.intersects(k.symDiff(base, k.buffer(k.envelope(base), 1.0)), c) ==> k.intersects(final.shadows, c))
  {
    var seed := ShadowSeed(k, base, roads);
    var outside := k.symDiff(base, k.buffer(k.envelope(base), 1.0));
    UnionAllIntersects(k, [outside, roads], c);
    assert k.intersects(roads, c) || k.intersects(outside, c) ==> k.intersects(seed, c) by {
      if k.intersects(roads, c) {
        assert [outside, roads][1] == roads;
      }
      if k.intersects(outside, c) {
        assert [outside, roads][0] == outside;
      }
    }
    var p0 := Plan.Progress(Plan.Plan(None, seed), cursor);
    var bands1 := Sections.Sections(k, divisions, -10.0);
    var r1 := Plan.PlanRun(k, rng, cursor, bands1, seed, None, style);
    Plan.PlanGrows(k, rng, cursor, bands1, seed, None, style);
    var p1 := r1.value;
    var bands2 := Sections.Sections(k, divisions, -20.0);
    Plan.PlanGrows(k, rng, p1.cursor, bands2, p1.plan.shadows, p1.plan.buildings, style);
    var p2 := Plan.PlanRun(k, rng, p1.cursor, bands2, p1.plan.shadows, p1.plan.buildings, style).value;
    Plan.GrowsTrans(k, p0.plan, p1.plan, p2.plan);
  }

  /** `generate_plans_by_division` returns exactly `plan_number` plans, each a fresh run of OnePlan. */
  lemma {:induction false} PlansRunSpec(k: Kernel, rng: Rng, cursor: nat, base: Region, divisions: seq<Region>, roads: Region,
                                         style: Plan.Style, n: nat)
    requires PlansRun(k, rng, cursor, base, divisions, roads, style, n).Ok?
    ensures var ps := PlansRun(k, rng, cursor, base, divisions, roads, style, n).value;
      && |ps.plans| == n
      && forall t :: 0 <= t < n ==>
        exists c: nat :: OnePlan(k, rng, c, base, divisions, roads, style).Ok? &&
          OnePlan(k, rng, c, base, divisions, roads, style).value.plan.buildings == ps.plans[t]
  {
    if n > 0 {
      PlansRunSpec(k, rng, cursor, base, divisions, roads, style, n - 1);
      var prev := PlansRun(k, rng, cursor, base, divisions, roads, style, n - 1).value;
      var q := OnePlan(k, rng, prev.cursor, base, divisions, roads, style);
      var ps := PlansRun(k, rng, cursor, base, divisions, roads, style, n).value;
      forall t | 0 <= t < n
        ensures exists c: nat ::
          OnePlan(k, rng, c, base, divisions, roads, style).Ok? &&
          OnePlan(k, rng, c, base, divisions, roads, style).value.plan.buildings == ps.plans[t]
      {
        if t < n - 1 {
          assert ps.plans[t] == prev.plans[t];
        } else {
          assert ps.plans[t] == q.value.plan.buildings;
        }
      }
    }
  }

  // ---------------------------------------------------------------------
  // The imperative pipeline
  // ---------------------------------------------------------------------

  /** `generate_division(base, min_r, max_r)`. */
  method GenerateDivision(k: Kernel, rng: Rng, cursor: nat, base: Region, minR: int, maxR: int) returns (result: Result<Attempt>)
    ensures result == DivisionRun(k, rng, cursor, base, minR, maxR)
  {
    var distance := EntranceDistance(k, base);
    var entrances := Entrances.GetEntrances(k, base, EntranceCount, distance);
    if entrances.Err? {
      return Err(entrances.failure);
    }
    result := GrowDivision(k, rng, cursor, base, minR, maxR, entrances.value);
  }

  /** The circles grown from the entrances, then the roads and lots between them. */
  method GrowDivision(k: Kernel, rng: Rng, cursor: nat, base: Region, minR: int, maxR: int, entrances: seq<Region>) returns (result: Result<Attempt>)
    ensures result == FromEntrances(k, rng, cursor, base, minR, maxR, entrances)
  {
    var collection, next := Collection.GenerateCollection(k, rng, cursor, base, minR, maxR, GridDensity, CircleResolution, entrances);
    if collection.Err? {
      return Err(collection.failure);
    }
    // the coverage ratio, whose value is unused, divides by the base's area
    if k.area(base) == 0.0 {
      return Err(ZeroBaseArea);
    }
    var division := CutLots(k, base, maxR, entrances, collection.value);
    if division.Err? {
      return Err(division.failure);
    }
    return Ok(Attempt(division.value, next));
  }

  /** The roads, the footprint, the residual lots, their sort and their smoothing. */
  method CutLots(k: Kernel, base: Region, maxR: int, entrances: seq<Region>, collection: seq<Region>) returns (result: Result<Division>)
    ensures result == Layout(k, base, maxR, entrances, collection)
  {
    var roads := Roads.GetRoads(k, collection, base, RoadDistance(maxR));
    var cascadedEntrances := UnionAll(k, entrances);
    var cascadedRoads := UnionAll(k, BufferedRoads(k, roads));
    cascadedRoads := UnionAll(k, [cascadedRoads, cascadedEntrances]);
    var placeToBuild := k.difference(base, cascadedRoads);
    var newCollection := CollectLots(k, placeToBuild);
    newCollection := SortByArea(k, newCollection);
    var smoothed := SmoothLots(k, newCollection);
    if smoothed.Err? {
      return Err(smoothed.failure);
    }
    return Ok(Division(smoothed.value, cascadedRoads));
  }
  /** The residual as a list: itself when a Polygon, otherwise its pieces one by one. */
  method CollectLots(k: Kernel, placeToBuild: Region) returns (newCollection: seq<Region>)
    ensures newCollection == LotsOf(k, placeToBuild)
  {
    if k.kind(placeToBuild) == PolygonKind {
      return [placeToBuild];
    }
    var pieces := k.parts(placeToBuild);
    newCollection := [];
    for i := 0 to |pieces|
      invariant newCollection == pieces[..i]
    {
      newCollection := newCollection + [pieces[i]];
    }
  }

  /** `[smooth_polygon(geom) for geom in new_collection]`. */
  method SmoothLots(k: Kernel, lots: seq<Region>) returns (result: Result<seq<Region>>)
    ensures result == SmoothAll(k, lots)
  {
    var smoothed := [];
    for i := 0 to |lots|
      invariant SmoothAll(k, lots[..i]) == Ok(smoothed)
    {
      var g := Smoothing.SmoothPolygon(k, lots[i], SmoothLength, true);
      assert lots[..i + 1][..i] == lots[..i];
      if g.Err? {
        SmoothAllFails(k, lots, i + 1);
        return Err(g.failure);
      }
      smoothed := smoothed + [g.value];
    }
    assert lots[..|lots|] == lots;
    return Ok(smoothed);
  }

  /** A failure of a prefix is the failure of the whole list. */
  lemma {:induction false} SmoothAllFails(k: Kernel, lots: seq<Region>, m: nat)
    requires m <= |lots| && SmoothAll(k, lots[..m]).Err?
    ensures SmoothAll(k, lots) == SmoothAll(k, lots[..m])
    decreases |lots| - m
  {
    if m < |lots| {
      assert lots[..m + 1][..m] == lots[..m];
      SmoothAllFails(k, lots, m + 1);
    } else {
      assert lots[..m] == lots;
    }
  }

  /** `get_best_divisions(base)`. */
  method GetBestDivisions(k: Kernel, rng: Rng, cursor: nat, base: Region) returns (result: Result<Search>)
    ensures result == BestDivisions(k, rng, cursor, base)
  {
    var maxAttempts := MaxAttempts(k.area(base));
    var state := Search(None, InitialRate, 0, cursor);
    while state.timeout < maxAttempts
      invariant SearchFrom(Attempts(k, rng, base), maxAttempts, state) == BestDivisions(k, rng, cursor, base)
      decreases maxAttempts - state.timeout
    {
      var outcome := TryDivision(k, rng, base, state.cursor);
      if outcome.Err? {
        return Err(outcome.failure);
      }
      state := Update(state, outcome.value);
    }
    return Ok(state);
  }

  /** One division and its ratio `max(areas) / min(areas)`. */
  method TryDivision(k: Kernel, rng: Rng, base: Region, cursor: nat) returns (result: Result<Outcome>)
    ensures result == AttemptAt(k, rng, base, cursor)
  {
    var attempt := GenerateDivision(k, rng, cursor, base, MinR, MaxR);
    if attempt.Err? {
      return Err(attempt.failure);
    }
    var areas := Areas(k, attempt.value.division.lots);
    if |areas| == 0 {
      return Err(EmptyLotList);
    }
    if MinOf(areas) == 0.0 {
      return Err(ZeroMinArea);
    }
    var myAreaRate := MaxOf(areas) / MinOf(areas);
    return Ok(Outcome(attempt.value.division, RoadsConnected(k, attempt.value.division.roads), myAreaRate, attempt.value.cursor));
  }
  /** `generate_plans_by_division(divisions, cascaded_roads, plan_number, ...)`: the buildings of each plan. */
  method GeneratePlansByDivision(k: Kernel, rng: Rng, cursor: nat, base: Region, divisions: seq<Region>, cascadedRoads: Region,
                                 planNumber: nat, style: Plan.Style)
    returns (result: Result<Plans>)
    ensures result == PlansRun(k, rng, cursor, base, divisions, cascadedRoads, style, planNumber)
  {
    var planList := [];
    var c := cursor;
    for i := 0 to planNumber
      invariant PlansRun(k, rng, cursor, base, divisions, cascadedRoads, style, i) == Ok(Plans(planList, c))
    {
      var plan := PlanOnce(k, rng, c, base, divisions, cascadedRoads, style);
      if plan.Err? {
        PlansRunFails(k, rng, cursor, base, divisions, cascadedRoads, style, i + 1, planNumber);
        return Err(plan.failure);
      }
      planList := planList + [plan.value.plan.buildings];
      c := plan.value.cursor;
    }
    return Ok(Plans(planList, c));
  }

  /** Once a plan fails, the ensemble fails the same way. */
  lemma {:induction false} PlansRunFails(k: Kernel, rng: Rng, cursor: nat, base: Region, divisions: seq<Region>, roads: Region,
                                          style: Plan.Style, m: nat, n: nat)
    requires m <= n && PlansRun(k, rng, cursor, base, divisions, roads, style, m).Err?
    ensures PlansRun(k, rng, cursor, base, divisions, roads, style, n) == PlansRun(k, rng, cursor, base, divisions, roads, style, m)
    decreases n - m
  {
    if m < n {
      PlansRunFails(k, rng, cursor, base, divisions, roads, style, m, n - 1);
    }
  }

  /** The body of the plan loop: a fresh start, then the passes at -10 and -20. */
  method PlanOnce(k: Kernel, rng: Rng, cursor: nat, base: Region, divisions: seq<Region>, cascadedRoads: Region, style: Plan.Style)
    returns (result: Result<Plan.Progress>)
    ensures result == OnePlan(k, rng, cursor, base, divisions, cascadedRoads, style)
  {
    var overallBuildings: Option<Region> := None;
    var overallShadows := UnionAll(k, [k.symDiff(base, k.buffer(k.envelope(base), 1.0)), cascadedRoads]);
    var pr := Plan.Progress(Plan.Plan(overallBuildings, overallShadows), cursor);
    ghost var start := pr;
    for i := 0 to |Offsets|
      invariant Passes(k, rng, style, divisions, i, pr) == Passes(k, rng, style, divisions, 0, start)
    {
      var placed := PlacePass(k, rng, style, divisions, Offsets[i], pr);
      if placed.Err? {
        return Err(placed.failure);
      }
      pr := placed.value;
    }
    return Ok(pr);
  }

  /** One pass: the sections at one offset, shuffled and placed on top of the accumulators. */
  method PlacePass(k: Kernel, rng: Rng, style: Plan.Style, divisions: seq<Region>, offset: real, pr: Plan.Progress)
    returns (result: Result<Plan.Progress>)
    ensures result == Plan.PlanRun(k, rng, pr.cursor, Sections.Sections(k, divisions, offset), pr.plan.shadows, pr.plan.buildings, style)
  {
    var newCollectionBuffered := Sections.GetBufferedSections(k, divisions, offset);
    var bands := new Region[|newCollectionBuffered|](t requires 0 <= t < |newCollectionBuffered| => newCollectionBuffered[t]);
    assert bands[..] == newCollectionBuffered;
    result := Plan.GeneratePlan(k, rng, pr.cursor, bands, pr.plan.shadows, pr.plan.buildings, style);
  }
}
