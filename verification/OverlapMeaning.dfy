/** What resolving overlaps does to each part, read off the placements before and after. */
module OverlapMeaning {
  import opened Basics
  import opened Operations
  import opened OverlapTheorems

  // ----- the tests on rectangles -----

  /** v lies strictly between the ends, once they are pushed out by the margin. */
  predicate Between(v: real, low: real, size: real, margin: real) {
    low - margin < v < low + size + margin
  }

  lemma IntervalsMeet(a: real, aSize: real, b: real, bSize: real, margin: real)
    requires aSize > 0.0 && bSize > 0.0 && margin >= 0.0
    ensures (exists v :: Between(v, a, aSize, margin) && Between(v, b, bSize, 0.0)) <==>
      a - margin < b + bSize && b < a + aSize + margin
  {
    if a - margin < b + bSize && b < a + aSize + margin {
      var low := MaxReal(a - margin, b);
      var high := if a + aSize + margin < b + bSize then a + aSize + margin else b + bSize;
      var v := (low + high) / 2.0;
      assert Between(v, a, aSize, margin) && Between(v, b, bSize, 0.0);
    }
  }

  /** Two rectangles are too close exactly when the first, grown by the clearance on every side, has an inner
      point in common with the second. */
  lemma RectsOverlapMeans(a: Rect, b: Rect, clearance: real)
    requires a.width > 0.0 && a.height > 0.0 && b.width > 0.0 && b.height > 0.0 && clearance >= 0.0
    ensures RectsOverlap(a, b, clearance) <==>
      (exists x :: Between(x, a.x, a.width, clearance) && Between(x, b.x, b.width, 0.0))
      && (exists y :: Between(y, a.y, a.height, clearance) && Between(y, b.y, b.height, 0.0))
  {
    IntervalsMeet(a.x, a.width, b.x, b.width, clearance);
    IntervalsMeet(a.y, a.height, b.y, b.height, clearance);
  }

  /** The spacing asked for, 8 if none is, and never negative. */
  function Gap(o: Options): real {
    if o.spacing.None? then 8.0 else if o.spacing.value < 0.0 then 0.0 else o.spacing.value
  }

  predicate Fixed(o: Options, p: Placement) {
    p.locked || p.componentId in o.lockedIds
  }

  // ----- the grid of centers -----

  /** The point is a whole number of steps from the least center at which the part lies in the bounds, and past
      the greatest by no more than the tolerance. */
  predicate IsCenter(o: Options, p: Placement, x: real, y: real, i: nat, j: nat) {
    var step := if Gap(o) < 1.0 then 1.0 else Gap(o);
    var roomX := if o.bounds.width < p.width then 0.0 else o.bounds.width - p.width;
    var roomY := if o.bounds.height < p.height then 0.0 else o.bounds.height - p.height;
    && x == o.bounds.x + p.width / 2.0 + i as real * step && x <= o.bounds.x + p.width / 2.0 + roomX + EPSILON
    && y == o.bounds.y + p.height / 2.0 + j as real * step && y <= o.bounds.y + p.height / 2.0 + roomY + EPSILON
  }

  ghost predicate Center(o: Options, p: Placement, x: real, y: real) {
    exists i: nat, j: nat :: IsCenter(o, p, x, y, i, j)
  }

  lemma CentersMean(o: Options, p: Placement, c: Point)
    ensures c in Centers(o, p) <==> Center(o, p, c.x, c.y)
  {
    CandidateGridExact(c, CenterBounds(o, p), MaxReal(1.0, Spacing(o)));
    assert forall i: nat, j: nat ::
      GridPoint(c, i, j, CenterBounds(o, p), MaxReal(1.0, Spacing(o))) <==> IsCenter(o, p, c.x, c.y, i, j);
  }

  /** c comes before d: the row first. */
  predicate Sooner(c: Point, d: Point) {
    c.y < d.y || (c.y == d.y && c.x < d.x)
  }

  ghost predicate Rising(points: seq<Point>) {
    forall i, j :: 0 <= i < j < |points| ==> Sooner(points[i], points[j])
  }

  lemma RisingJoin(a: seq<Point>, b: seq<Point>)
    requires Rising(a) && Rising(b) && forall p, q :: p in a && q in b ==> Sooner(p, q)
    ensures Rising(a + b)
  {
  }

  lemma {:induction false} RowRises(x: real, end: real, y: real, step: real)
    requires step > 0.0
    ensures Rising(RowPoints(x, end, y, step))
    ensures forall p :: p in RowPoints(x, end, y, step) ==> p.y == y && p.x >= x
    decreases (end - x) / step
  {
    StepsLeft(x, end, step);
    if x <= end {
      var rest := RowPoints(x + step, end, y, step);
      RowRises(x + step, end, y, step);
      RisingJoin([Point(x, y)], rest);
    }
  }

  lemma {:induction false} GridRises(x: real, endX: real, y: real, endY: real, step: real)
    requires step > 0.0
    ensures Rising(GridRows(x, endX, y, endY, step))
    ensures forall p :: p in GridRows(x, endX, y, endY, step) ==> p.y >= y
    decreases (endY - y) / step
  {
    StepsLeft(y, endY, step);
    if y <= endY {
      RowRises(x, endX, y, step);
      GridRises(x, endX, y + step, endY, step);
      RisingJoin(RowPoints(x, endX, y, step), GridRows(x, endX, y + step, endY, step));
    }
  }

  /** What the search finds is the first point that suits, and what it gives up on has none it may still try. */
  lemma {:induction false} FindFirst(points: seq<Point>, suits: Point -> bool, limit: nat, iterations: nat)
    returns (k: nat)
    requires Find(points, suits, limit, iterations).center.Some?
    ensures k < |points| && iterations + k < limit && Find(points, suits, limit, iterations).center == Some(points[k])
    ensures Find(points, suits, limit, iterations).iterations == iterations + k + 1
    ensures forall j :: 0 <= j < k ==> !suits(points[j])
  {
    if suits(points[0]) {
      k := 0;
    } else {
      var rest := FindFirst(points[1..], suits, limit, iterations + 1);
      k := rest + 1;
      forall j | 0 <= j < k ensures !suits(points[j]) {
        assert j > 0 ==> points[j] == points[1..][j - 1];
      }
    }
  }

  // ----- one part -----

  /** No side of b is past the same side of the bounds by more than the tolerance. */
  predicate StandsIn(b: Rect, bounds: Rect) {
    && bounds.x - b.x <= EPSILON && (b.x + b.width) - (bounds.x + bounds.width) <= EPSILON
    && bounds.y - b.y <= EPSILON && (b.y + b.height) - (bounds.y + bounds.height) <= EPSILON
  }

  /** The place is inside the bounds, clear of the keep-outs and apart from the parts settled before. */
  predicate Fits(o: Options, b: Rect, before: seq<Placement>) {
    && StandsIn(b, o.bounds)
    && (forall k :: 0 <= k < |o.keepouts| ==> !RectsOverlap(b, o.keepouts[k], Gap(o)))
    && (forall k :: 0 <= k < |before| ==> !RectsOverlap(b, before[k].bbox, Gap(o)))
  }

  predicate CentredOn(b: Rect, x: real, y: real, width: real, height: real) {
    b == Rect(x - width / 2.0, y - height / 2.0, width, height)
  }

  /** The part has been moved: to a grid point, with its box around it, and otherwise as it was. */
  ghost predicate Moved(o: Options, p: Placement, next: Placement) {
    && next == p.(x := next.x, y := next.y, bbox := next.bbox, reason := "overlap-resolved")
    && CentredOn(next.bbox, next.x, next.y, p.width, p.height)
    && Center(o, p, next.x, next.y)
  }

  /** The part would fit with its box around (x, y). */
  predicate FitsAt(o: Options, p: Placement, x: real, y: real, before: seq<Placement>) {
    Fits(o, Rect(x - p.width / 2.0, y - p.height / 2.0, p.width, p.height), before)
  }

  /** Fixed and fitting parts stay; any other is moved to the first grid point at which it fits, or fails. */
  ghost predicate SettledAs(o: Options, p: Placement, before: seq<Placement>, next: Placement, failed: bool) {
    if Fixed(o, p) || Fits(o, p.bbox, before) then next == p.(locked := Fixed(o, p)) && !failed
    else if failed then next == p.(locked := false)
    else
      && Moved(o, p, next) && Fits(o, next.bbox, before)
      && forall x, y :: Center(o, p, x, y) && Sooner(Point(x, y), Point(next.x, next.y)) ==> !FitsAt(o, p, x, y, before)
  }

  lemma FitsExact(o: Options, b: Rect, before: seq<Placement>)
    ensures PlacementFits(o, b, before) <==> Fits(o, b, before)
  {
  }

  lemma CentersRise(o: Options, p: Placement)
    ensures Rising(Centers(o, p))
  {
    var b := CenterBounds(o, p);
    GridRises(b.x, b.x + b.width + EPSILON, b.y, b.y + b.height + EPSILON, SafeStep(MaxReal(1.0, Spacing(o))));
  }

  lemma SoonerFails(o: Options, p: Placement, before: seq<Placement>, k: nat, x: real, y: real)
    requires k < |Centers(o, p)| && forall j :: 0 <= j < k ==> !Suits(o, p, before)(Centers(o, p)[j])
    requires Center(o, p, x, y) && Sooner(Point(x, y), Centers(o, p)[k])
    ensures !FitsAt(o, p, x, y, before)
  {
    var points := Centers(o, p);
    CentersMean(o, p, Point(x, y));
    CentersRise(o, p);
    var j :| 0 <= j < |points| && points[j] == Point(x, y);
    assert j < k;
    FitsExact(o, RectFromCenter(points[j], p.width, p.height), before);
  }

  lemma FoundMeans(o: Options, p: Placement, before: seq<Placement>, iterations: nat)
    requires Find(Centers(o, p), Suits(o, p, before), Limit(o), iterations).center.Some?
    ensures var c := Find(Centers(o, p), Suits(o, p, before), Limit(o), iterations).center.value;
      && Center(o, p, c.x, c.y) && FitsAt(o, p, c.x, c.y, before)
      && forall x, y :: Center(o, p, x, y) && Sooner(Point(x, y), c) ==> !FitsAt(o, p, x, y, before)
  {
    var points := Centers(o, p);
    var k := FindFirst(points, Suits(o, p, before), Limit(o), iterations);
    FindExact(points, Suits(o, p, before), Limit(o), iterations);
    CentersMean(o, p, points[k]);
    FitsExact(o, RectFromCenter(points[k], p.width, p.height), before);
    forall x, y | Center(o, p, x, y) && Sooner(Point(x, y), points[k]) ensures !FitsAt(o, p, x, y, before) {
      SoonerFails(o, p, before, k, x, y);
    }
  }

  lemma SettleMeans(o: Options, p: Placement, before: seq<Placement>, iterations: nat)
    ensures var out := Settle(o, p, before, iterations); SettledAs(o, p, before, out.next, out.failed)
  {
    FitsExact(o, p.bbox, before);
    if !Fixed(o, p) && !Fits(o, p.bbox, before) {
      var search := Find(Centers(o, p), Suits(o, p, before), Limit(o), iterations);
      if search.center.Some? {
        FoundMeans(o, p, before, iterations);
      }
    }
  }

  /** The points all searches together may try: as many as asked for, 20000 if nothing is asked, at least one. */
  function Tries(o: Options): int {
    if o.maxIterations.None? then 20000 else if o.maxIterations.value < 1 then 1 else o.maxIterations.value
  }

  /** The part fits at no point of the grid. */
  ghost predicate NoPlace(o: Options, p: Placement, before: seq<Placement>) {
    forall x, y :: Center(o, p, x, y) ==> !FitsAt(o, p, x, y, before)
  }

  lemma {:induction false} FindTries(points: seq<Point>, suits: Point -> bool, limit: nat, iterations: nat)
    ensures var search := Find(points, suits, limit, iterations);
      && search.iterations >= iterations
      && (search.center.None? && search.iterations <= limit ==> forall k :: 0 <= k < |points| ==> !suits(points[k]))
  {
    if points != [] && iterations + 1 <= limit && !suits(points[0]) {
      FindTries(points[1..], suits, limit, iterations + 1);
      assert forall k :: 0 < k < |points| ==> points[k] == points[1..][k - 1];
    }
  }

  /** A search fails only if there is no place, or the tries have run out. */
  lemma FailureMeans(o: Options, p: Placement, before: seq<Placement>, iterations: nat)
    ensures var out := Settle(o, p, before, iterations);
      out.iterations >= iterations && (out.failed ==> NoPlace(o, p, before) || out.iterations > Tries(o))
  {
    var points, suits := Centers(o, p), Suits(o, p, before);
    var out := Settle(o, p, before, iterations);
    FindTries(points, suits, Limit(o), iterations);
    if out.failed && out.iterations <= Tries(o) {
      forall x, y | Center(o, p, x, y) ensures !FitsAt(o, p, x, y, before) {
        CentersMean(o, p, Point(x, y));
        var k :| 0 <= k < |points| && points[k] == Point(x, y);
        assert !suits(points[k]);
        FitsExact(o, RectFromCenter(points[k], p.width, p.height), before);
      }
    }
  }

  /** Part m is settled against those before it. */
  lemma {:induction false} SettledAt(o: Options, ordered: seq<Placement>, m: nat) returns (failed: bool)
    requires m < |ordered|
    ensures var all := Settled(o, ordered);
      && SettledAs(o, ordered[m], all.occupied[..m], all.occupied[m], failed) && (failed ==> all.failed)
      && (failed ==> NoPlace(o, ordered[m], all.occupied[..m]) || all.iterations > Tries(o))
  {
    var n := |ordered| - 1;
    var before := Settled(o, ordered[..n]);
    FailureMeans(o, ordered[n], before.occupied, before.iterations);
    if m < n {
      failed := SettledAt(o, ordered[..n], m);
      assert Settled(o, ordered).occupied[..m] == before.occupied[..m];
    } else {
      failed := Settle(o, ordered[n], before.occupied, before.iterations).failed;
      SettleMeans(o, ordered[n], before.occupied, before.iterations);
      assert Settled(o, ordered).occupied[..n] == before.occupied;
    }
  }

  // ----- the whole layout -----

  /** The placement is part p where it was, or moved to a grid point with its box around it. */
  ghost predicate StaysOrMoves(o: Options, p: Placement, next: Placement) {
    next == p.(locked := Fixed(o, p)) || (!Fixed(o, p) && Moved(o, p, next))
  }

  /** Main result for any layout: each placement of the result is that of a part with the same id, where it was
      or moved; a moved part's coordinates are the grid point that its box is centred on. */
  lemma ResultMeans(o: Options, ps: seq<Placement>, k: nat) returns (j: nat)
    requires k < |ps|
    ensures j < |ps| && ps[j].componentId == ps[k].componentId
    ensures StaysOrMoves(o, ps[j], Resolved(o, ps)[k])
  {
    var ordered := Ordering(o, ps);
    var i := ResultFrom(o, ps, k);
    var failed := SettledAt(o, ordered, i);
    OrderingSorted(o, ps);
    assert ordered[i] in ordered;
    j :| j < |ps| && ps[j] == ordered[i];
  }

  ghost predicate AllCentred(ps: seq<Placement>) {
    forall k :: 0 <= k < |ps| ==> CentredOn(ps[k].bbox, ps[k].x, ps[k].y, ps[k].width, ps[k].height)
  }

  /** Boxes centred on their coordinates stay so, whatever the ids. */
  lemma ResultCentred(o: Options, ps: seq<Placement>)
    requires AllCentred(ps)
    ensures AllCentred(Resolved(o, ps))
  {
    forall k: nat | k < |ps|
      ensures var r := Resolved(o, ps)[k]; CentredOn(r.bbox, r.x, r.y, r.width, r.height)
    {
      var j := ResultMeans(o, ps, k);
    }
  }

  /** Fixed parts come before the others, and then the id decides. */
  predicate Earlier(o: Options, a: Placement, b: Placement) {
    (Fixed(o, a) && !Fixed(o, b)) || (Fixed(o, a) == Fixed(o, b) && StrLess(a.componentId, b.componentId))
  }

  lemma OrderMeans(o: Options, a: Placement, b: Placement)
    requires a.componentId != b.componentId
    ensures Earlier(o, a, b) <==> !OrderedBefore(o, b, a)
    ensures Earlier(o, a, b) <==> OrderedBefore(o, a, b)
  {
    StrTotal(a.componentId, b.componentId);
    StrAsymmetric(a.componentId, b.componentId);
  }

  lemma PositionMeans(o: Options, ps: seq<Placement>, m: nat, n: nat)
    requires DistinctIds(ps) && m < |ps| && n < |ps| && m != n
    ensures n < m <==> Earlier(o, Ordering(o, ps)[n], Ordering(o, ps)[m])
  {
    var ordered := Ordering(o, ps);
    OrderingExact(o, ps);
    ResolveOrderTotal(o);
    SortOrdered(ResolveOrder(o), ps);
    OrderMeans(o, ordered[n], ordered[m]);
    if n < m {
      assert ResolveOrder(o)(ordered[n], ordered[m]);
    } else {
      assert ResolveOrder(o)(ordered[m], ordered[n]);
    }
  }

  /** The results of the parts that come before part k. */
  ghost predicate SettledBefore(o: Options, ps: seq<Placement>, k: nat, before: seq<Placement>)
    requires k < |ps|
  {
    forall q :: q in before <==> exists j :: 0 <= j < |ps| && Earlier(o, ps[j], ps[k]) && q == Resolved(o, ps)[j]
  }

  /** Main result for distinct ids, which fixes the whole result: each part stays if it is fixed or fits among
      the results of those before it, and else is moved to the first grid point where it does, unless the search
      failed. */
  lemma ResultFixed(o: Options, ps: seq<Placement>, k: nat) returns (before: seq<Placement>, failed: bool)
    requires DistinctIds(ps) && k < |ps|
    ensures SettledBefore(o, ps, k, before)
    ensures SettledAs(o, ps[k], before, Resolved(o, ps)[k], failed)
    ensures failed ==> SearchFailed(o, ps)
    ensures failed ==> NoPlace(o, ps[k], before) || Settled(o, Ordering(o, ps)).iterations > Tries(o)
  {
    var ordered, occupied := Ordering(o, ps), Settled(o, Ordering(o, ps)).occupied;
    var m := ResultOf(o, ps, k);
    failed := SettledAt(o, ordered, m);
    before := occupied[..m];
    forall q | q in before ensures exists j :: 0 <= j < |ps| && Earlier(o, ps[j], ps[k]) && q == Resolved(o, ps)[j] {
      var n: nat :| n < m && before[n] == q;
      var j := EarlierResult(o, ps, n);
      PositionMeans(o, ps, m, n);
    }
    forall j: nat | j < |ps| && Earlier(o, ps[j], ps[k]) ensures Resolved(o, ps)[j] in before {
      var n := ResultOf(o, ps, j);
      StrIrreflexive(ps[k].componentId);
      PositionMeans(o, ps, m, n);
      assert before[n] == occupied[n];
    }
  }

  lemma EarlierResult(o: Options, ps: seq<Placement>, n: nat) returns (j: nat)
    requires DistinctIds(ps) && n < |ps|
    ensures j < |ps| && ps[j] == Ordering(o, ps)[n] && Resolved(o, ps)[j] == Settled(o, Ordering(o, ps)).occupied[n]
  {
    var ordered := Ordering(o, ps);
    OrderingExact(o, ps);
    assert ordered[n] in ordered;
    j :| j < |ps| && ps[j] == ordered[n];
    var i := ResultOf(o, ps, j);
    assert i == n;
  }
}
