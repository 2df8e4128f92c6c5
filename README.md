# basemap land subdivision, modelled in Dafny

This project models the land-subdivision pipeline of basemap. The pipeline
takes a polygonal site (the *base*) and works in stages:

- It places entrance discs on the longest boundary edges.
- It grows a collection of circles from a grid of candidate points.
- It joins nearby circle centres with straight roads.
- It subtracts the buffered roads and the entrances (the *circulation
  footprint*) from the site to get lots, sorts the lots by area and
  smooths their corners with quadratic Bezier blends.
- It repeats that attempt a number of times fixed by the site's area. It
  keeps the attempt whose footprint is one polygon and whose ratio of
  largest to smallest lot area is smallest.
- For each of `plan_number` plans it erodes the lots at offsets -10 and
  -20. It shuffles the resulting bands and walks their boundaries,
  placing building footprints greedily. A footprint is placed only where
  it avoids the accumulated shadows, and only where its own shadow avoids
  the buildings placed so far.

The model has one module per stage:

- `Geometry`:
  - the geometry library as a parameter (`Kernel`, over an abstract type
    `Region`);
  - Python's `int()` and `%`;
  - the random oracle;
  - the failures a Python exception signals.
- `Sorting`: Python's stable `sorted` on a key, as a list of indices.
- `Entrances`: `get_entrances`.
- `Collection`: `generate_collection`.
- `Roads`: `get_roads_v2`.
- `Sections`: `get_buffered_sections`.
- `Curves`: `bc`, `basic_curve`, and both versions of `get_curve`.
- `Smoothing`: `mod` and `smooth_polygon`.
- `Plan`: `generate_plan`, including `random.shuffle`.
- `Division`: `generate_division`, `check_roads_conected`,
  `get_best_divisions`, `get_max_attemps` and `generate_plans_by_division`.

Each loop of the source is a `method` whose `ensures` equates its result with
a specification function. The properties are lemmas about those functions.

Randomness is an oracle `rng: nat -> nat` read at a cursor that every stage
threads through and returns:

- `random.choice(xs)` is `xs[rng(c) % |xs|]`;
- `random.randint(a, b)` is `a + rng(c) % (b - a + 1)`;
- `random.shuffle` is CPython's Fisher–Yates, one draw per swap.

Each Python exception the model covers becomes an `Err` value, not a
precondition; the few it does not cover are listed under "Left out".

The radii `min_r = 60` and `max_r = 80` are parameters of `DivisionRun`
and `GenerateDivision`; the search passes the defaults, as
`get_best_divisions` does.

### Behaviour of the code worth noting
- A grown circle has radius `d + 1`, so it overlaps its nearest neighbour by
  1. It is not tangent to it.
- `get_entrances` raises IndexError on a boundary without coordinates.
  This is `Err(NoBoundaryEdge)`.
- `get_entrances` checks the count only after considering a candidate, so
  `entrances_count = 1` can return two entrances (`CountOneMayYieldTwo`).
- The search starts from the ratio 9999, not from infinity. `(None, None)`
  therefore means that no connected attempt had a ratio below 9999.
  Connectivity alone is not enough.
- `generate_division` divides by `base.area` for its unused coverage
  value, so a base of area zero raises ZeroDivisionError once the circles
  are grown. This is `Err(ZeroBaseArea)`.
- The ratio `max(areas) / min(areas)` is computed on every attempt, before
  the connectivity test. An empty lot list or a lot of area zero raises an
  exception.
- `smooth_polygon` divides by the shorter side at each corner, so a
  repeated vertex raises ZeroDivisionError. Its `min_length` default is 20.
- The first building of a plan is tested only against the shadows.
  `not overall_buildings` is also true for an empty geometry.
- The boundary walk in `generate_plan` visits `len(coords) - 1` cyclic
  pairs starting at the random vertex `k`. On a closed ring with `k > 0`
  this includes the zero-length closing pair and skips edge `(k-1, k)`
  (`ClosedRingWalk`).

## Model

| member | source | states |
|---|---|---|
| Geometry.UnionAllIntersects | generate_division.py:25-27 | a region meets a `cascaded_union` exactly when it meets one of the united regions |
| Geometry.Midpoint | util.py:102-104 | the centroid of an edge is equidistant from both ends along each axis |
| Geometry.Trunc | util.py:154 | `int(x)` truncates toward zero: `n <= x < n+1` for x ≥ 0, `n-1 < x <= n` for x < 0 |
| Geometry.PyMod | util.py:244-245 | Python's `%` takes the sign of the divisor, is the identity inside the range, and differs from i by a multiple of the divisor |
| Geometry.Draw | util.py:140 | `random.choice(range(n))` yields an index below n |
| Geometry.RandInt | util.py:194 | `random.randint(a, b)` lies in `[a, b]` |
| Sorting.SortIndicesSpec | util.py:101 | the stable sort lists every position exactly once, keyed in order, with ties in their original order |
| Sorting.SortFirst | util.py:101-102 | the first sorted position holds an extreme key, and it is the earliest such position |
| Sorting.SameSortedLists | util.py:101 | two stably sorted lists of the same positions are equal, so the stable order is unique |
| Entrances.Ranked | util.py:101 | `sorted(lines, key=length, reverse=True)` keeps the number of edges and lists only edges of the boundary |
| Entrances.RankedSpec | util.py:101 | the ranked edges are the boundary edges rearranged by an order naming every position once, in non-increasing length, equal lengths in boundary order; the first is the earliest longest edge |
| Entrances.Candidates | util.py:101-104 | one candidate midpoint per boundary edge |
| Entrances.Midpoints | util.py:102-104 | candidate t is the midpoint of edge t |
| Entrances.Consider | util.py:104-111 | considering a candidate keeps the entrances already chosen, and appends the candidate itself exactly when it is at least `distance` from all of them |
| Entrances.SelectExtends | util.py:103-113 | the greedy scan keeps earlier choices, chooses increasing positions, and adds at most one per candidate |
| Entrances.SelectSeparated | util.py:103-113 | the greedy scan keeps every two chosen entrances at least `distance` apart |
| Entrances.StepSeparated | util.py:104-111 | one acceptance test keeps the chosen entrances pairwise separated |
| Entrances.SelectCount | util.py:112-113 | the scan stops as soon as the count is reached, so it never exceeds `max(count, chosen + 1)` |
| Entrances.SelectEnd | util.py:103-113 | the scan from candidate i ends at or before the last candidate |
| Entrances.SelectComplete | util.py:103-113 | every candidate the scan examines and rejects is closer than `distance` to an entrance accepted before it, and a result shorter than `count` means the scan examined every candidate |
| Entrances.StepBlocked | util.py:104-111 | a candidate the test rejects is closer than `distance` to an earlier entrance, and positions stay increasing |
| Entrances.BlockedExtends | util.py:103-113 | a rejected candidate stays rejected for a good reason when later entrances are accepted |
| Entrances.EntranceFirstIsLongest | util.py:101-102 | the first entrance is the midpoint of a longest edge, the earliest one on ties |
| Entrances.EntranceCount | util.py:102-113 | between 1 and the number of edges entrances, and at most `entrances_count` when it is at least 2 |
| Entrances.EntrancesSeparated | util.py:105-111 | every two returned entrance centres are at least `distance` apart |
| Entrances.EntrancesMaximal | util.py:102-113 | with fewer entrances than `entrances_count`, every midpoint not returned is closer than `distance` to an entrance accepted before it |
| Entrances.EntrancesRanked | util.py:101-113 | the entrances are ranked-edge midpoints, in non-increasing edge length |
| Entrances.EntranceDiscs | util.py:96-114 | the call fails exactly on an empty boundary; otherwise each zone is the entrance centre buffered by 25 |
| Entrances.CountOneMayYieldTwo | util.py:110-113 | with `entrances_count = 1`, a second midpoint far enough from the first is still returned |
| Entrances.GetEntrances | util.py:95-114 | the loop computes `EntranceZones` of the boundary coordinates |
| Entrances.BoundaryEdges | util.py:96-100 | edge i joins coordinate i to coordinate (i+1) mod n |
| Entrances.SpreadEntrances | util.py:102-113 | the acceptance loop returns the midpoints the greedy scan selects, in order |
| Entrances.SpreadStep | util.py:104-111 | one iteration of the acceptance loop is one step of the greedy scan |
| Entrances.IsFarFrom | util.py:105-109 | the inner loop accepts exactly when the candidate is at least `distance` from every chosen entrance |
| Collection.RowCandidatesSpec | util.py:182-185 | one grid row keeps exactly the row points the eroded base contains, at most `density` of them |
| Collection.GridRowsSize | util.py:181-185 | rows 0..m-1 keep at most `m * density` points |
| Collection.GridRowsMembers | util.py:181-185 | a point is kept exactly when it is a grid point of those rows that the eroded base contains |
| Collection.CandidatesSpec | util.py:176-185 | at most `density²` candidates, exactly the envelope grid points inside the base eroded by 15 |
| Collection.GridCandidates | util.py:176-185 | the nested grid loop computes the candidate list |
| Collection.RemoveFirst | util.py:197 | `list.remove` of a present point takes out one occurrence of it (the removed point is always drawn from the list, util.py:193) |
| Collection.MinDistance | util.py:199-200 | the distance to the nearest circle: a lower bound that some circle attains |
| Collection.GrowStep | util.py:192-208 | one iteration fails exactly on an empty collection with `min_r > max_r`; otherwise it counts one iteration and consumes randomness |
| Collection.GrownFromLargerPool | util.py:193-208 | a circle grown from a candidate of a smaller pool is also grown from any larger pool |
| Collection.StepEffect | util.py:192-208 | an iteration removes exactly the chosen point and appends at most one grown circle, or leaves both lists unchanged when `d > max_r` |
| Collection.StepSeeds | util.py:193-197 | with no circles, the drawn point is removed and one disc of radius `randint(min_r, max_r)` in `[min_r, max_r]` becomes the collection; two draws are used |
| Collection.StepTooClose | util.py:199-202 | `d < min_r`: the drawn point is removed and no circle is added |
| Collection.StepGrows | util.py:199-208 | `min_r <= d <= max_r`: the drawn point is removed and a disc of radius `d + 1` around it is appended |
| Collection.StepOutOfReach | util.py:199-204 | `d > max_r` (and not below `min_r`, tested first): neither list changes |
| Collection.RemoveDrawn | util.py:193-197 | removing a point drawn from the list shortens it by one and takes out one copy of that point |
| Collection.GrowFailure | util.py:190-194 | the loop fails exactly when its first step has no seeds and an empty radius range; the failure is ValueError |
| Collection.GrowBounds | util.py:187-208 | at most 200 iterations; it stops on no candidates or the cap; the seeds remain a prefix; at most one circle per iteration; the candidates only shrink |
| Collection.RemoveFirstSubset | util.py:197 | removal never adds a point |
| Collection.GrowCircles | util.py:193-208 | every appended circle has radius in `[min_r, max_r]` (empty collection) or `d + 1` with `min_r <= d <= max_r`, around a candidate point |
| Collection.GrowAdvance | util.py:190-208 | the loop continues from the state one iteration produces, or fails with it |
| Collection.GenerateCollection | util.py:175-209 | the method computes `CollectionRun`: its failure, or its collection and the next random position |
| Collection.GrowRound | util.py:191-208 | the loop body computes one `GrowStep` |
| Roads.Centres | util.py:88 | centre t is the centroid of element t |
| Roads.RowPairsSpec | util.py:85-91 | row i lists, in increasing j, exactly the pairs (i, j) with i < j < n that are linked |
| Roads.PairsUpToBounds | util.py:84-91 | every emitted pair satisfies i < r and i < j < n |
| Roads.PairsUpToOrder | util.py:84-91 | the pairs come in lexicographic (i, j) order |
| Roads.PairsUpToMembers | util.py:84-91 | (i, j) is emitted exactly when i < r, i < j < n and the pair is linked |
| Roads.PairsUpToSize | util.py:84-85 | rows 0..r-1 emit at most `r(2n-r-1)/2` pairs |
| Roads.LinkedPairsSpec | util.py:83-91 | the road pairs are exactly the i < j whose centres are closer than `max_distance` and whose segment misses the eroded outside, in lexicographic order, at most n(n-1)/2 of them |
| Roads.RoadListSpec | util.py:81-92 | every road is the segment between the centroids of a linked pair, every linked pair has its road, and there are at most n(n-1)/2 roads |
| Roads.GetRoads | util.py:81-92 | the double loop computes `RoadList` |
| Roads.JoinRow | util.py:85-91 | the inner loop emits, in order, the segment of each linked pair of row i |
| Sections.SectionsNonEmpty | util.py:120-127 | no emitted section is empty when multi-polygon pieces are non-empty |
| Sections.SectionsAppend | util.py:119-127 | sections of a concatenation are the concatenation of sections, so input order is preserved |
| Sections.SectionsOne | util.py:120-127 | one lot contributes its buffered pieces, and nothing when the buffer is empty |
| Sections.GetBufferedSections | util.py:117-128 | the nested loop computes `Sections` |
| Curves.BcWeights | util.py:232-233 | the Bezier weights sum to 1, so equal control values give that value |
| Curves.BcEnds | util.py:232-233 | `bc` is a at t = 0 and c at t = 1 |
| Curves.CorrectedBcInterpolates | curve_a_road.py:25-26 | the corrected `bc` passes through a, b and c at t = 0, 1/2 and 1 |
| Curves.BasicCurve | util.py:212-241 | `basic_curve` returns the 8 Bezier samples at t = i/8 |
| Curves.GetBezierCurve | util.py:49-78 | `util.get_curve` returns the LineString through the Bezier samples of its three control points, read from Points or tuples |
| Curves.BezierSamplesSpec | util.py:72-77 | the 100 samples start at A and end at t = 0.99, so C is in general not reached; equal control points give a constant curve |
| Curves.GetCurve | curve_a_road.py:5-35 | `curve_a_road.get_curve` returns the LineString through the corrected samples of its three control points |
| Curves.CorrectedSamplesSpec | curve_a_road.py:25-33 | the 101 corrected samples: sample 0 is A, sample 50 is B, sample 100 is C |
| Curves.CoordinatesIndependent | curve_a_road.py:29-33 | each coordinate of a sample depends only on that coordinate of A, B and C |
| Curves.PointOrTuple | curve_a_road.py:6-23 | a Point and the tuple of its coordinates give the same control point |
| Smoothing.Mod | util.py:244-245 | `mod` lies in `[0, module)` for a positive modulus and in `(module, 0]` for a negative one, and differs from i by a multiple of the modulus |
| Smoothing.NeighbourIndices | util.py:257-259 | the predecessor of corner 0 is the last vertex, and the successor of the last is 0 |
| Smoothing.Min | util.py:260-262 | `min` is one of its arguments and bounds both |
| Smoothing.CornerCurve | util.py:263-265 | each corner contributes 8 points |
| Smoothing.RateSpec | util.py:262 | the blend rate lies in [0, 0.5]; it is 0.5 exactly when the shorter side is at most 2·min_length, and min_length / shorter otherwise |
| Smoothing.CurveStart | util.py:263-265 | a corner's block starts at S = rate·P + (1-rate)·V |
| Smoothing.BlocksSpec | util.py:256-266 | smoothing fails exactly when some corner has a zero-length shorter side (ZeroDivisionError), and otherwise yields 8 points per corner |
| Smoothing.BlocksSamples | util.py:256-266 | point 8i+j is sample j of corner i's curve at that corner's rate |
| Smoothing.SmoothedSpec | util.py:248-267 | a non-Polygon is returned unchanged; a Polygon gives a polygon of 8 points per corner, or fails exactly on a zero-length side |
| Smoothing.SmoothPolygon | util.py:248-267 | the corner loop computes `Smoothed` and stops at the first failing corner |
| Smoothing.SmoothCorner | util.py:257-265 | the loop body computes one corner's 8 points or its failure |
| Smoothing.BlocksFail | util.py:260-262 | once a corner fails, the whole polygon fails the same way |
| Plan.Swap | util.py:133 | one shuffle step exchanges two positions and leaves the rest |
| Plan.SwapPermutes | util.py:133 | a swap permutes the list |
| Plan.ShuffleFromPermutes | util.py:133 | the Fisher–Yates steps permute the list |
| Plan.ShufflePermutes | util.py:133 | `random.shuffle` keeps the length and the multiset of the bands |
| Plan.Shuffle | util.py:133 | the in-place shuffle leaves the array equal to `Shuffled` and consumes one draw per step |
| Plan.GrowsTrans | util.py:161-171 | growth of the accumulators composes |
| Plan.TryPlaceSpec | util.py:161-171 | a building is placed exactly when acceptable: it misses the shadows and, after the first, its shadow misses the buildings; the shadows become their union with its shadow; otherwise nothing changes |
| Plan.TryPlaceGrows | util.py:161-171 | placement only grows both accumulators, and an accepted shadow is covered afterwards |
| Plan.AcceptedClearOfEarlier | util.py:161-171 | an accepted building misses every earlier shadow state, and its shadow misses every earlier building state |
| Plan.SlotIndex | util.py:156-158 | the slot index `(j + k') % n` lies in `[0, n)` |
| Plan.SlotCentreOnEdge | util.py:157-158 | a slot centre sits at fraction `((j + k') % n)/n ∈ [0, 1)` along the edge |
| Plan.SlotCountBounds | util.py:154 | `n = int(length / 3)` satisfies `3n <= length < 3(n+1)` |
| Plan.Slots | util.py:155-171 | the slot loop draws one offset per slot |
| Plan.WalkPositions | util.py:142-144 | the walk from k visits every vertex position except `(k + len - 1) % len` |
| Plan.ClosedRingWalk | util.py:139-144 | on a closed ring the walk from 0 visits the len-1 edges; from k > 0 it visits the closing pair and skips edge (k-1, k) |
| Plan.SlotsGrow | util.py:155-171 | the slots of one edge only grow the accumulators |
| Plan.WalkGrows | util.py:142-171 | walking a boundary only grows the accumulators and consumes randomness |
| Plan.BandsGrow | util.py:134-171 | placing over the bands only grows the accumulators |
| Plan.PlanGrows | util.py:131-172 | `generate_plan` only grows the shadows and the buildings it was given |
| Plan.BandsFailure | util.py:136-140 | `random.choice` fails only on a non-empty band without boundary coordinates, and never when non-empty regions have boundaries |
| Plan.GeneratePlan | util.py:131-172 | the method shuffles the band array in place and returns `PlanRun` of the original bands |
| Plan.PlaceBand | util.py:135-171 | one band is skipped if empty, else walked from a random start |
| Plan.WalkEdge | util.py:143-154 | one edge's angle and slot count, then its slots |
| Plan.PlaceEdge | util.py:155-171 | the slot loop computes `Slots` from slot 0 |
| Division.BufferedRoads | generate_division.py:26 | road t buffered by 4 |
| Division.FootprintMeets | generate_division.py:25-27 | the footprint meets a region exactly when a buffered road or an entrance disc does |
| Division.Areas | generate_division.py:64 | area t is the area of lot t |
| Division.SortByArea | generate_division.py:35 | sorting keeps the number of lots |
| Division.SortByAreaSpec | generate_division.py:35 | the sorted lots are a permutation of the lots, in ascending area, with equal areas in their original order |
| Division.SmoothAllSpec | generate_division.py:36 | every lot is smoothed once, in place; the list fails exactly when one lot fails |
| Division.LayoutSpec | generate_division.py:22-38 | the footprint is roads buffered by 4 plus entrances; lot t is the t-th residual piece by area, smoothed; failure exactly on a lot that cannot be smoothed |
| Division.DivisionRunSpec | generate_division.py:13-38 | an attempt on a base without boundary fails like `get_entrances`; on a base of area zero it fails with the coverage ZeroDivisionError unless growth failed first; a successful attempt's base has non-zero area and its footprint covers every entrance disc |
| Division.RoadsConnected | generate_division.py:41-42 | `check_roads_conected`: the footprint is a single Polygon; used by `AttemptsFaithful` and the search lemmas |
| Division.MaxAttempts | generate_division.py:46-55 | 5 below area 10000, 10 below 50000, 15 below 100000, otherwise 25 (each exactly) |
| Division.MaxAttemptsMonotone | generate_division.py:46-55 | the budget grows with the area, from 5 to 25 |
| Division.MaxOf | generate_division.py:65 | `max(areas)` is an element bounding all others |
| Division.MinOf | generate_division.py:65 | `min(areas)` is an element bounded by all others |
| Division.AreaRateSpec | generate_division.py:64-65 | for non-negative areas: ValueError exactly on no lots, ZeroDivisionError exactly on a lot of area zero, and otherwise a ratio of at least 1 |
| Division.Update | generate_division.py:66-69 | the best is replaced only by a connected attempt with a strictly smaller ratio; the ratio never increases and is at most every connected ratio |
| Division.SearchCount | generate_division.py:59-63 | the loop makes exactly `limit - timeout` attempts |
| Division.SearchRate | generate_division.py:60-69 | the final ratio is at most the starting one and at most the ratio of every connected attempt |
| Division.SearchBest | generate_division.py:60-69 | the result keeps the starting best, or the earliest connected attempt whose ratio is the final ratio, below the starting one |
| Division.AttemptsFaithful | generate_division.py:63-66 | each attempt reports its own footprint's connectivity and its own lots' ratio |
| Division.SearchKeeps | generate_division.py:66-69 | a kept division stays connected with the kept ratio, which is below 9999 |
| Division.InitialSearch | generate_division.py:57-70 | from `(None, 9999)`: exactly the budget of attempts; a kept division is connected, below 9999, and the earliest optimum among connected attempts; `None` exactly when no connected attempt is below 9999 |
| Division.BestDivisionsSpec | generate_division.py:45-70 | `get_best_divisions` makes `get_max_attemps(base)` attempts, returns a connected division with the minimum ratio below 9999, or `None` exactly when no connected attempt is below 9999 |
| Division.OnePlanPasses | generate_division.py:77-87 | a plan starts with no buildings and the fresh seed, runs the -10 pass, then the -20 pass from the first pass's accumulators |
| Division.OnePlanAvoidsRoads | generate_division.py:78-87 | the final shadows of a plan cover the footprint and the outside of the base |
| Division.PlansRunSpec | generate_division.py:75-97 | exactly `plan_number` plans, each the buildings of a run of `OnePlan` from no buildings and the fresh seed |
| Division.GenerateDivision | generate_division.py:13-38 | the method computes `DivisionRun` |
| Division.GrowDivision | generate_division.py:16-38 | growth and layout after the entrances |
| Division.CutLots | generate_division.py:22-38 | roads, footprint, residual lots, sorting and smoothing compute `Layout` |
| Division.CollectLots | generate_division.py:29-34 | the residual itself when a Polygon, else its pieces in order |
| Division.SmoothLots | generate_division.py:36 | the comprehension computes `SmoothAll` |
| Division.SmoothAllFails | generate_division.py:36 | the first failing lot decides the failure |
| Division.GetBestDivisions | generate_division.py:45-70 | the while loop computes `BestDivisions` |
| Division.TryDivision | generate_division.py:62-66 | one attempt and its ratio |
| Division.GeneratePlansByDivision | generate_division.py:73-98 | the plan loop computes `PlansRun` |
| Division.PlansRunFails | generate_division.py:76-97 | a failing plan is the failure of the ensemble |
| Division.PlanOnce | generate_division.py:77-88 | the offset loop computes `OnePlan` |
| Division.PlacePass | generate_division.py:83-87 | one pass: the sections at one offset, handed as a fresh array to `generate_plan` |

## Left out
- The geometry library is a parameter (`Kernel`): buffer, union,
  difference, symmetric difference, envelope, bounds, containment,
  intersection, distance, centroid, area and boundary are not reimplemented.
  The lemmas state only the laws they need (`UnionLaws`, `PartsLaw`,
  `RingLaw`).
- `get_corners`, `get_building` and `get_building_shadow` (rotation by
  cos, sin and atan2) are the opaque constructors `building` and `shadow`.
  The edge angle `degrees(atan2(...))` is the opaque `heading`, and
  `math.sqrt` is the opaque `sqrt`.
- Floating point: coordinates, lengths and areas are exact reals.
- Randomness: the model reads one oracle value per `choice`, `randint` and
  shuffle step. It does not model the Mersenne Twister or CPython's
  rejection sampling in `_randbelow`.
- Plotting, `plt.savefig`, `print` and the module-level demos are left out.
  This includes `list_to_display.extend(overall_buildings)` at
  generate_division.py:89, which raises TypeError when a plan placed no
  building. The model returns such a plan as `None`.
- The value of the unused coverage ratio and the `display` lists in
  `generate_division` are left out; only the coverage's division by
  `base.area` (ZeroDivisionError on a base of area zero) is modelled.
- The module-global `base` used by `generate_plans_by_division` is an
  explicit parameter.
- `generate_plans_by_division` with `cascaded_roads = None`, which happens
  when the search kept nothing, is not modelled: the footprint is a region.
- Polygon holes are not modelled: `boundary.coords` is the single
  coordinate ring `ring`. The model also does not capture that shapely
  refuses `.coords` on a multi-part boundary.
- `copy.deepcopy` of the seeds is the identity, since regions are values.
- triangulate.py, mondrian.py and mytry.py are not part of this model.
- Entrances.Ranked: the function's own contract states the length and that
  every ranked edge is a boundary edge; the rearrangement, the order and
  the stability are in `RankedSpec`.
- Division.SortByArea: the function's own contract states only the length;
  the permutation, ascending order and stability are in `SortByAreaSpec`.
- Smoothing.SmoothedSpec: states the number of points of the smoothed
  polygon; the value of each point is in `BlocksSamples`.
