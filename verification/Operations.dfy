/** Resolving overlaps in a layout: locked parts stay, every other part that does not fit
    is moved to the first free point of a grid. Coordinates are real numbers. */
module Operations {
  import opened Basics

  const EPSILON: real := 0.000000001

  datatype Point = Point(x: real, y: real)

  datatype Rect = Rect(x: real, y: real, width: real, height: real)

  datatype Placement = Placement(
    componentId: string, x: real, y: real, width: real, height: real, locked: bool, bbox: Rect, reason: string)

  datatype Options = Options(
    bounds: Rect, keepouts: seq<Rect>, spacing: Option<real>, lockedIds: set<string>, maxIterations: Option<int>)

  function MaxReal(a: real, b: real): real { if a < b then b else a }

  predicate RectsOverlap(a: Rect, b: Rect, clearance: real) {
    !(a.x + a.width + clearance <= b.x || b.x + b.width + clearance <= a.x
      || a.y + a.height + clearance <= b.y || b.y + b.height + clearance <= a.y)
  }

  predicate RectInsideRect(inner: Rect, outer: Rect) {
    && inner.x >= outer.x - EPSILON && inner.y >= outer.y - EPSILON
    && inner.x + inner.width <= outer.x + outer.width + EPSILON
    && inner.y + inner.height <= outer.y + outer.height + EPSILON
  }

  function RectFromCenter(c: Point, width: real, height: real): Rect {
    Rect(c.x - width / 2.0, c.y - height / 2.0, width, height)
  }

  // ----- the grid of candidate centers -----

  function SafeStep(step: real): (r: real)
    ensures r >= EPSILON
  {
    MaxReal(step, EPSILON)
  }

  lemma StepsLeft(v: real, end: real, step: real)
    requires step > 0.0
    ensures (end - (v + step)) / step == (end - v) / step - 1.0
    ensures v <= end ==> (end - v) / step >= 0.0
  {
    var q := (end - v) / step;
    assert q * step == end - v;
    assert (q - 1.0) * step == end - (v + step);
    Cancel((end - (v + step)) / step, q - 1.0, step);
    if q < 0.0 {
      assert q * step < 0.0;
    }
  }

  lemma Cancel(a: real, b: real, step: real)
    requires step > 0.0 && a * step == b * step
    ensures a == b
  {
    assert (a - b) * step == 0.0;
  }

  function RowPoints(x: real, end: real, y: real, step: real): seq<Point>
    requires step > 0.0
    decreases (end - x) / step
  {
    if x <= end then
      StepsLeft(x, end, step);
      [Point(x, y)] + RowPoints(x + step, end, y, step)
    else []
  }

  function GridRows(x: real, endX: real, y: real, endY: real, step: real): seq<Point>
    requires step > 0.0
    decreases (endY - y) / step
  {
    if y <= endY then
      StepsLeft(y, endY, step);
      RowPoints(x, endX, y, step) + GridRows(x, endX, y + step, endY, step)
    else []
  }

  function CandidateGrid(bounds: Rect, step: real): seq<Point> {
    GridRows(bounds.x, bounds.x + bounds.width + EPSILON, bounds.y, bounds.y + bounds.height + EPSILON, SafeStep(step))
  }

  lemma Regroup<T>(a: seq<T>, b: seq<T>, c: seq<T>)
    ensures a + (b + c) == a + b + c
  {
  }

  method BuildCandidateGrid(bounds: Rect, step: real) returns (points: seq<Point>)
    ensures points == CandidateGrid(bounds, step)
  {
    var safeStep := SafeStep(step);
    var endX, endY := bounds.x + bounds.width + EPSILON, bounds.y + bounds.height + EPSILON;
    points := [];
    var y := bounds.y;
    while y <= endY
      invariant points + GridRows(bounds.x, endX, y, endY, safeStep) == CandidateGrid(bounds, step)
      decreases (endY - y) / safeStep
    {
      StepsLeft(y, endY, safeStep);
      ghost var row := RowPoints(bounds.x, endX, y, safeStep);
      ghost var below := GridRows(bounds.x, endX, y + safeStep, endY, safeStep);
      ghost var before := points;
      var x := bounds.x;
      while x <= endX
        invariant points + RowPoints(x, endX, y, safeStep) == before + row
        decreases (endX - x) / safeStep
      {
        StepsLeft(x, endX, safeStep);
        Regroup(points, [Point(x, y)], RowPoints(x + safeStep, endX, y, safeStep));
        points := points + [Point(x, y)];
        x := x + safeStep;
      }
      assert points == before + row;
      Regroup(before, row, below);
      y := y + safeStep;
    }
  }

  /** n steps from v. */
  function After(v: real, n: nat, step: real): real
    decreases n
  {
    if n == 0 then v else After(v + step, n - 1, step)
  }

  lemma {:induction false} AfterExact(v: real, n: nat, step: real)
    ensures After(v, n, step) == v + n as real * step
    ensures step > 0.0 ==> After(v, n, step) >= v
    decreases n
  {
    if n > 0 {
      AfterExact(v + step, n - 1, step);
      assert n as real * step == (n - 1) as real * step + step;
    }
  }

  lemma {:induction false} RowPointListed(i: nat, x: real, end: real, y: real, step: real)
    requires step > 0.0 && After(x, i, step) <= end
    ensures Point(After(x, i, step), y) in RowPoints(x, end, y, step)
    decreases i
  {
    AfterExact(x, i, step);
    if i > 0 {
      RowPointListed(i - 1, x + step, end, y, step);
    }
  }

  lemma {:induction false} RowPointOnly(p: Point, x: real, end: real, y: real, step: real) returns (i: nat)
    requires step > 0.0 && p in RowPoints(x, end, y, step)
    ensures p == Point(After(x, i, step), y) && p.x <= end
    decreases (end - x) / step
  {
    StepsLeft(x, end, step);
    if p == Point(x, y) {
      i := 0;
    } else {
      var k := RowPointOnly(p, x + step, end, y, step);
      i := k + 1;
    }
  }

  lemma {:induction false} GridPointListed(i: nat, j: nat, x: real, endX: real, y: real, endY: real, step: real)
    requires step > 0.0 && After(x, i, step) <= endX && After(y, j, step) <= endY
    ensures Point(After(x, i, step), After(y, j, step)) in GridRows(x, endX, y, endY, step)
    decreases j
  {
    AfterExact(y, j, step);
    if j == 0 {
      RowPointListed(i, x, endX, y, step);
    } else {
      GridPointListed(i, j - 1, x, endX, y + step, endY, step);
    }
  }

  lemma {:induction false} GridPointOnly(p: Point, x: real, endX: real, y: real, endY: real, step: real)
    returns (i: nat, j: nat)
    requires step > 0.0 && p in GridRows(x, endX, y, endY, step)
    ensures p == Point(After(x, i, step), After(y, j, step)) && p.x <= endX && p.y <= endY
    decreases (endY - y) / step
  {
    StepsLeft(y, endY, step);
    if p in RowPoints(x, endX, y, step) {
      i := RowPointOnly(p, x, endX, y, step);
      j := 0;
    } else {
      var k: nat;
      i, k := GridPointOnly(p, x, endX, y + step, endY, step);
      j := k + 1;
    }
  }

  /** p is i steps, none below EPSILON, right of and j steps above the corner, and at most EPSILON past the
      far edges. */
  predicate GridPoint(p: Point, i: nat, j: nat, bounds: Rect, step: real) {
    var pace := if step < EPSILON then EPSILON else step;
    && p.x == bounds.x + i as real * pace && p.y == bounds.y + j as real * pace
    && p.x <= bounds.x + bounds.width + EPSILON && p.y <= bounds.y + bounds.height + EPSILON
  }

  lemma ListedIsGridPoint(p: Point, bounds: Rect, step: real) returns (i: nat, j: nat)
    requires p in CandidateGrid(bounds, step)
    ensures GridPoint(p, i, j, bounds, step)
  {
    i, j := GridPointOnly(p, bounds.x, bounds.x + bounds.width + EPSILON, bounds.y, bounds.y + bounds.height + EPSILON,
      SafeStep(step));
    AfterExact(bounds.x, i, SafeStep(step));
    AfterExact(bounds.y, j, SafeStep(step));
  }

  lemma GridPointIsListed(p: Point, i: nat, j: nat, bounds: Rect, step: real)
    requires GridPoint(p, i, j, bounds, step)
    ensures p in CandidateGrid(bounds, step)
  {
    AfterExact(bounds.x, i, SafeStep(step));
    AfterExact(bounds.y, j, SafeStep(step));
    assert p == Point(After(bounds.x, i, SafeStep(step)), After(bounds.y, j, SafeStep(step)));
    GridPointListed(i, j, bounds.x, bounds.x + bounds.width + EPSILON, bounds.y, bounds.y + bounds.height + EPSILON,
      SafeStep(step));
  }

  /** The candidate grid is every point a whole number of steps from the corner of the
      bounds that does not pass the far edges by more than EPSILON, and no other. */
  lemma CandidateGridExact(p: Point, bounds: Rect, step: real)
    ensures p in CandidateGrid(bounds, step) <==> exists i: nat, j: nat :: GridPoint(p, i, j, bounds, step)
  {
    if p in CandidateGrid(bounds, step) {
      var i, j := ListedIsGridPoint(p, bounds, step);
    }
    if i: nat, j: nat :| GridPoint(p, i, j, bounds, step) {
      GridPointIsListed(p, i, j, bounds, step);
    }
  }

  // ----- one part -----

  function Spacing(o: Options): (r: real)
    ensures r >= 0.0
  {
    MaxReal(0.0, if o.spacing.Some? then o.spacing.value else 8.0)
  }

  function Limit(o: Options): (r: nat)
    ensures r >= 1
  {
    Max(1, if o.maxIterations.Some? then o.maxIterations.value else 20000)
  }

  predicate IsLocked(o: Options, p: Placement) {
    p.locked || p.componentId in o.lockedIds
  }

  predicate PlacementFits(o: Options, bbox: Rect, occupied: seq<Placement>) {
    && RectInsideRect(bbox, o.bounds)
    && (forall k :: 0 <= k < |o.keepouts| ==> !RectsOverlap(bbox, o.keepouts[k], Spacing(o)))
    && (forall k :: 0 <= k < |occupied| ==> !RectsOverlap(bbox, occupied[k].bbox, Spacing(o)))
  }

  function CenterBounds(o: Options, p: Placement): Rect {
    Rect(o.bounds.x + p.width / 2.0, o.bounds.y + p.height / 2.0,
      MaxReal(0.0, o.bounds.width - p.width), MaxReal(0.0, o.bounds.height - p.height))
  }

  function Centers(o: Options, p: Placement): seq<Point> {
    CandidateGrid(CenterBounds(o, p), MaxReal(1.0, Spacing(o)))
  }

  function MovedPlacement(p: Placement, c: Point, reason: string): Placement {
    p.(x := c.x, y := c.y, bbox := RectFromCenter(c, p.width, p.height), reason := reason)
  }

  /** The center would suit the part. */
  function Suits(o: Options, p: Placement, occupied: seq<Placement>): Point -> bool {
    (c: Point) => PlacementFits(o, RectFromCenter(c, p.width, p.height), occupied)
  }

  datatype Search = Search(center: Option<Point>, iterations: nat)

  /** The first suitable point within the iteration limit shared by all parts. */
  function Find(points: seq<Point>, suits: Point -> bool, limit: nat, iterations: nat): Search {
    if points == [] then Search(None, iterations)
    else if iterations + 1 > limit then Search(None, iterations + 1)
    else if suits(points[0]) then Search(Some(points[0]), iterations + 1)
    else Find(points[1..], suits, limit, iterations + 1)
  }

  method FindCenter(points: seq<Point>, suits: Point -> bool, limit: nat, start: nat) returns (search: Search)
    ensures search == Find(points, suits, limit, start)
  {
    var iterations: nat := start;
    for i := 0 to |points|
      invariant Find(points, suits, limit, start) == Find(points[i..], suits, limit, iterations)
    {
      assert points[i..][1..] == points[i + 1..];
      iterations := iterations + 1;
      if iterations > limit {
        return Search(None, iterations);
      }
      if suits(points[i]) {
        return Search(Some(points[i]), iterations);
      }
    }
    search := Search(None, iterations);
  }

  /** The search gives up exactly when none of the points it still may try suits. */
  lemma {:induction false} FindExact(points: seq<Point>, suits: Point -> bool, limit: nat, iterations: nat)
    ensures var tries := Max(0, limit - iterations);
      Find(points, suits, limit, iterations).center == None <==>
      forall k :: 0 <= k < Min(|points|, tries) ==> !suits(points[k])
    ensures Find(points, suits, limit, iterations).center.Some? ==>
      Find(points, suits, limit, iterations).center.value in points &&
        suits(Find(points, suits, limit, iterations).center.value)
  {
    if points != [] && iterations + 1 <= limit && !suits(points[0]) {
      var rest := points[1..];
      FindExact(rest, suits, limit, iterations + 1);
      forall k | 0 <= k < Min(|points|, limit - iterations) ensures k == 0 || points[k] == rest[k - 1] {
      }
      forall k | 0 <= k < Min(|rest|, Max(0, limit - (iterations + 1))) ensures rest[k] == points[k + 1] {
      }
    }
  }

  datatype Outcome = Outcome(next: Placement, iterations: nat, failed: bool)

  function Settle(o: Options, p: Placement, occupied: seq<Placement>, iterations: nat): Outcome {
    var stays := p.(locked := IsLocked(o, p));
    if IsLocked(o, p) || PlacementFits(o, p.bbox, occupied) then Outcome(stays, iterations, false)
    else
      var search := Find(Centers(o, p), Suits(o, p, occupied), Limit(o), iterations);
      match search.center
      case None => Outcome(stays, search.iterations, true)
      case Some(c) => Outcome(MovedPlacement(p, c, "overlap-resolved"), search.iterations, false)
  }

  // ----- the whole layout -----

  /** Locked parts first, then by id. */
  predicate OrderedBefore(o: Options, a: Placement, b: Placement) {
    if IsLocked(o, a) != IsLocked(o, b) then IsLocked(o, a) else !StrLess(b.componentId, a.componentId)
  }

  function ResolveOrder(o: Options): (Placement, Placement) -> bool {
    (a: Placement, b: Placement) => OrderedBefore(o, a, b)
  }

  datatype State = State(occupied: seq<Placement>, iterations: nat, failed: bool)

  function Settled(o: Options, ordered: seq<Placement>): (s: State)
    ensures |s.occupied| == |ordered|
  {
    if ordered == [] then State([], 0, false)
    else
      var before := Settled(o, ordered[..|ordered| - 1]);
      var out := Settle(o, ordered[|ordered| - 1], before.occupied, before.iterations);
      State(before.occupied + [out.next], out.iterations, before.failed || out.failed)
  }

  /** The result map, the last entry of an id winning. */
  function Table(occupied: seq<Placement>): map<string, Placement> {
    if occupied == [] then map[]
    else Table(occupied[..|occupied| - 1])[occupied[|occupied| - 1].componentId := occupied[|occupied| - 1]]
  }

  function Lookup(table: map<string, Placement>, p: Placement): Placement {
    if p.componentId in table then table[p.componentId] else p
  }

  function Lookups(table: map<string, Placement>, placements: seq<Placement>): (r: seq<Placement>)
    ensures |r| == |placements| && forall k :: 0 <= k < |r| ==> r[k] == Lookup(table, placements[k])
  {
    seq(|placements|, k requires 0 <= k < |placements| => Lookup(table, placements[k]))
  }

  function Resolved(o: Options, placements: seq<Placement>): (r: seq<Placement>)
    ensures |r| == |placements|
  {
    Lookups(Table(Settled(o, SortBy(ResolveOrder(o), placements)).occupied), placements)
  }

  /** Some part found no place: it stays where it was. */
  predicate SearchFailed(o: Options, placements: seq<Placement>) {
    Settled(o, SortBy(ResolveOrder(o), placements)).failed
  }

  method SettlePart(o: Options, placement: Placement, occupied: seq<Placement>, iterations: nat) returns (out: Outcome)
    ensures out == Settle(o, placement, occupied, iterations)
  {
    var locked := IsLocked(o, placement);
    if locked || PlacementFits(o, placement.bbox, occupied) {
      return Outcome(placement.(locked := locked), iterations, false);
    }
    var centers := BuildCandidateGrid(CenterBounds(o, placement), MaxReal(1.0, Spacing(o)));
    var search := FindCenter(centers, Suits(o, placement, occupied), Limit(o), iterations);
    if search.center.None? {
      return Outcome(placement.(locked := locked), search.iterations, true);
    }
    out := Outcome(MovedPlacement(placement, search.center.value, "overlap-resolved"), search.iterations, false);
  }

  method ResolveOverlaps(o: Options, placements: seq<Placement>) returns (result: seq<Placement>)
    ensures result == Resolved(o, placements)
  {
    var ordered := SortBy(ResolveOrder(o), placements);
    var table: map<string, Placement> := map[];
    var occupied: seq<Placement> := [];
    var iterations := 0;
    ghost var failed := false;
    for i := 0 to |ordered|
      invariant State(occupied, iterations, failed) == Settled(o, ordered[..i])
      invariant table == Table(occupied)
    {
      assert ordered[..i + 1][..i] == ordered[..i];
      var out := SettlePart(o, ordered[i], occupied, iterations);
      iterations := out.iterations;
      failed := failed || out.failed;
      table := table[out.next.componentId := out.next];
      assert (occupied + [out.next])[..|occupied|] == occupied;
      occupied := occupied + [out.next];
    }
    assert ordered[..|ordered|] == ordered;
    result := Lookups(table, placements);
  }
}
