/** Checking a placement candidate against the sheet and its regions, and searching
    the grid for alternatives. Distances are compared by their squares. */
module Placement {
  import opened Basics
  import opened SchematicGeometry

  datatype RegionKind = TitleBlock | PageBorder | CallerReserved | SupportReservation | ExistingObject

  datatype Region = Region(id: string, kind: RegionKind, bounds: Bounds)

  datatype Sheet = Sheet(drawable: Bounds, grid: int, yDown: bool, titleBlock: Option<Bounds>)

  datatype Candidate = Candidate(origin: Position, rotation: int, bounds: Bounds)

  datatype Side = Start | Center | End

  datatype Level = Upper | Middle | Lower

  datatype Preference = Preference(horizontal: Side, vertical: Level)

  datatype Input = Input(
    sheet: Sheet, candidate: Candidate, hardKeepouts: seq<Region>, reserved: seq<Region>, occupied: seq<Region>,
    minimumClearance: Option<int>, maxAlternatives: Option<int>, preference: Option<Preference>)

  /** A signed distance: minus the depth of an overlap, or the root of a square. */
  datatype Clearance = Overlapping(depth: int) | Apart(squared: int)

  datatype Code =
    PageBorderKeepOut | TitleBlockKeepOut | CallerReservedRegion | SupportReserved | ExistingObjectOccupied
    | MinimumClearance

  datatype Conflict = Conflict(
    code: Code, regionId: string, kind: RegionKind, bounds: Bounds, clearance: Clearance, required: int)

  datatype Measure = Measure(regionId: string, kind: RegionKind, clearance: Clearance)

  datatype Check = Check(accepted: bool, proposed: Candidate, clearances: seq<Measure>, conflicts: seq<Conflict>)

  datatype Failure = NoFeasiblePosition(unsatisfied: set<Code>, searched: nat)

  datatype Result = Result(check: Check, alternatives: seq<Candidate>, failure: Option<Failure>)

  type Less = (string, string) -> bool

  // ----- one candidate -----

  function Gap(aLow: int, aHigh: int, bLow: int, bHigh: int): int {
    Max(Max(bLow - aHigh, aLow - bHigh), 0)
  }

  function RectangleClearance(a: Bounds, b: Bounds): Clearance {
    var dx, dy := Gap(a.x, Right(a), b.x, Right(b)), Gap(a.y, Bottom(a), b.y, Bottom(b));
    if dx == 0 && dy == 0 && Overlap(a, b) then
      Overlapping(Min(Min(Right(a), Right(b)) - Max(a.x, b.x), Min(Bottom(a), Bottom(b)) - Max(a.y, b.y)))
    else
      Apart(dx * dx + dy * dy)
  }

  predicate Sufficient(c: Clearance, minimum: int) {
    match c
    case Overlapping(depth) => -depth >= minimum
    case Apart(squared) => squared >= minimum * minimum
  }

  function ConflictCode(kind: RegionKind, clearance: Clearance): Code {
    if clearance.Apart? || clearance.depth <= 0 then MinimumClearance
    else
      match kind
      case TitleBlock => TitleBlockKeepOut
      case PageBorder => PageBorderKeepOut
      case CallerReserved => CallerReservedRegion
      case SupportReservation => SupportReserved
      case ExistingObject => ExistingObjectOccupied
  }

  function UnsortedRegions(input: Input): seq<Region> {
    (if input.sheet.titleBlock.Some? then [Region("sheet-title-block", TitleBlock, input.sheet.titleBlock.value)]
      else [])
    + input.hardKeepouts + input.reserved + input.occupied
  }

  function ById(less: Less): (Region, Region) -> bool {
    (a: Region, b: Region) => !less(b.id, a.id)
  }

  function AllRegions(less: Less, input: Input): seq<Region> {
    SortBy(ById(less), UnsortedRegions(input))
  }

  function Minimum(input: Input): int {
    Max(0, if input.minimumClearance.Some? then input.minimumClearance.value else input.sheet.grid)
  }

  function Margin(b: Bounds, drawable: Bounds): int {
    Min(Min(b.x - drawable.x, b.y - drawable.y), Min(Right(drawable) - Right(b), Bottom(drawable) - Bottom(b)))
  }

  function BorderMeasures(input: Input, b: Bounds): seq<Measure> {
    var m := Margin(b, input.sheet.drawable);
    if Inside(b, input.sheet.drawable) then [Measure("sheet-drawable-bounds", PageBorder, Apart(m * m))] else []
  }

  function BorderConflicts(input: Input, b: Bounds): seq<Conflict> {
    var m := Margin(b, input.sheet.drawable);
    if !Inside(b, input.sheet.drawable) then
      [Conflict(PageBorderKeepOut, "sheet-drawable-bounds", PageBorder, input.sheet.drawable, Overlapping(UNIT),
        Minimum(input))]
    else if m < Minimum(input) then
      [Conflict(MinimumClearance, "sheet-drawable-bounds", PageBorder, input.sheet.drawable, Apart(m * m),
        Minimum(input))]
    else []
  }

  function RegionMeasures(regions: seq<Region>, b: Bounds): seq<Measure> {
    if regions == [] then []
    else
      var last := regions[|regions| - 1];
      RegionMeasures(regions[..|regions| - 1], b) + [Measure(last.id, last.kind, RectangleClearance(b, last.bounds))]
  }

  function RegionConflicts(regions: seq<Region>, b: Bounds, minimum: int): seq<Conflict> {
    if regions == [] then []
    else
      var last := regions[|regions| - 1];
      var c := RectangleClearance(b, last.bounds);
      RegionConflicts(regions[..|regions| - 1], b, minimum)
      + (if Sufficient(c, minimum) then []
         else [Conflict(ConflictCode(last.kind, c), last.id, last.kind, last.bounds, c, minimum)])
  }

  function Checked(less: Less, input: Input, candidate: Candidate): Check {
    var regions := AllRegions(less, input);
    var conflicts := BorderConflicts(input, candidate.bounds) +
      RegionConflicts(regions, candidate.bounds, Minimum(input));
    Check(conflicts == [], candidate,
      BorderMeasures(input, candidate.bounds) + RegionMeasures(regions, candidate.bounds), conflicts)
  }

  lemma NextRegion(regions: seq<Region>, i: nat, b: Bounds, minimum: int)
    requires i < |regions|
    ensures var c := RectangleClearance(b, regions[i].bounds);
      && RegionMeasures(regions[..i + 1], b) ==
           RegionMeasures(regions[..i], b) + [Measure(regions[i].id, regions[i].kind, c)]
      && RegionConflicts(regions[..i + 1], b, minimum) == RegionConflicts(regions[..i], b, minimum)
           + (if Sufficient(c, minimum) then []
              else [Conflict(ConflictCode(regions[i].kind, c), regions[i].id, regions[i].kind, regions[i].bounds, c,
                minimum)])
  {
    assert regions[..i + 1][..i] == regions[..i];
  }

  method CheckRegions(regions: seq<Region>, b: Bounds, minimum: int)
    returns (clearances: seq<Measure>, conflicts: seq<Conflict>)
    ensures clearances == RegionMeasures(regions, b)
    ensures conflicts == RegionConflicts(regions, b, minimum)
  {
    clearances, conflicts := [], [];
    for i := 0 to |regions|
      invariant clearances == RegionMeasures(regions[..i], b)
      invariant conflicts == RegionConflicts(regions[..i], b, minimum)
    {
      NextRegion(regions, i, b, minimum);
      var region, clearance := regions[i], RectangleClearance(b, regions[i].bounds);
      clearances := clearances + [Measure(region.id, region.kind, clearance)];
      if Sufficient(clearance, minimum) {
        continue;
      }
      conflicts := conflicts +
        [Conflict(ConflictCode(region.kind, clearance), region.id, region.kind, region.bounds, clearance, minimum)];
    }
    assert regions[..|regions|] == regions;
  }

  method CheckCandidate(less: Less, input: Input, candidate: Candidate) returns (check: Check)
    ensures check == Checked(less, input, candidate)
  {
    var minimum := Minimum(input);
    var conflicts: seq<Conflict> := [];
    var clearances: seq<Measure> := [];
    var b, drawable := candidate.bounds, input.sheet.drawable;
    if !Inside(b, drawable) {
      conflicts := [Conflict(PageBorderKeepOut, "sheet-drawable-bounds", PageBorder, drawable, Overlapping(UNIT),
        minimum)];
    } else {
      var margin := Margin(b, drawable);
      clearances := [Measure("sheet-drawable-bounds", PageBorder, Apart(margin * margin))];
      if margin < minimum {
        conflicts := [Conflict(MinimumClearance, "sheet-drawable-bounds", PageBorder, drawable, Apart(margin * margin),
          minimum)];
      }
    }
    var regionClearances, regionConflicts := CheckRegions(AllRegions(less, input), b, minimum);
    clearances, conflicts := clearances + regionClearances, conflicts + regionConflicts;
    check := Check(conflicts == [], candidate, clearances, conflicts);
  }

  /** What acceptance means, without lists of conflicts. */
  ghost predicate Clear(input: Input, b: Bounds) {
    && Inside(b, input.sheet.drawable) && Margin(b, input.sheet.drawable) >= Minimum(input)
    && forall r :: r in UnsortedRegions(input) ==> Sufficient(RectangleClearance(b, r.bounds), Minimum(input))
  }

  lemma {:induction false} NoConflictsIff(regions: seq<Region>, b: Bounds, minimum: int)
    ensures RegionConflicts(regions, b, minimum) == [] <==>
      (forall r :: r in regions ==> Sufficient(RectangleClearance(b, r.bounds), minimum))
  {
    if regions != [] {
      var n := |regions| - 1;
      NoConflictsIff(regions[..n], b, minimum);
      assert regions == regions[..n] + [regions[n]];
    }
  }

  /** A candidate is accepted iff it keeps the clearance from the border and every region. */
  lemma AcceptedIff(less: Less, input: Input, candidate: Candidate)
    ensures Checked(less, input, candidate).accepted <==> Clear(input, candidate.bounds)
  {
    SortPermutes(ById(less), UnsortedRegions(input));
    MultisetMembers(AllRegions(less, input), UnsortedRegions(input));
    NoConflictsIff(AllRegions(less, input), candidate.bounds, Minimum(input));
  }

  predicate In(p: Position, b: Bounds) {
    b.x <= p.x <= Right(b) && b.y <= p.y <= Bottom(b)
  }

  function SquaredDistance(p: Position, q: Position): int {
    (p.x - q.x) * (p.x - q.x) + (p.y - q.y) * (p.y - q.y)
  }

  lemma SquareMonotone(a: int, b: int)
    requires 0 <= a <= b || 0 <= a <= -b
    ensures a * a <= b * b
  {
    var c := Abs(b);
    assert c * c == b * b;
    assert c * c - a * a == (c - a) * (c + a);
    Product(c - a, c + a);
  }

  lemma Product(a: int, b: int)
    requires a >= 0 && b >= 0
    ensures a * b >= 0
  {
  }

  lemma ClearanceLowerBound(a: Bounds, b: Bounds, p: Position, q: Position)
    requires In(p, a) && In(q, b) && RectangleClearance(a, b).Apart?
    ensures SquaredDistance(p, q) >= RectangleClearance(a, b).squared
  {
    SquareMonotone(Gap(a.x, Right(a), b.x, Right(b)), p.x - q.x);
    SquareMonotone(Gap(a.y, Bottom(a), b.y, Bottom(b)), p.y - q.y);
  }

  /** The clearance is the distance between the nearest points of the two bounds, and
      an overlap is reported exactly when they share more than a border. */
  lemma ClearanceIsDistance(a: Bounds, b: Bounds) returns (p: Position, q: Position)
    requires a.width >= 0 && a.height >= 0 && b.width >= 0 && b.height >= 0
    ensures In(p, a) && In(q, b)
    ensures RectangleClearance(a, b).Apart? ==>
      && SquaredDistance(p, q) == RectangleClearance(a, b).squared
      && forall s, t :: In(s, a) && In(t, b) ==> SquaredDistance(s, t) >= RectangleClearance(a, b).squared
    ensures RectangleClearance(a, b).Overlapping? <==> Overlap(a, b)
    ensures Overlap(a, b) ==> p == q && RectangleClearance(a, b).depth >= 0
  {
    p := Position(if Right(a) < b.x then Right(a) else Max(a.x, Min(b.x, Right(a))),
                  if Bottom(a) < b.y then Bottom(a) else Max(a.y, Min(b.y, Bottom(a))));
    q := Position(if Right(b) < p.x then Right(b) else Max(b.x, p.x),
                  if Bottom(b) < p.y then Bottom(b) else Max(b.y, p.y));
    if RectangleClearance(a, b).Apart? {
      SquareSame(Gap(a.x, Right(a), b.x, Right(b)), p.x - q.x);
      SquareSame(Gap(a.y, Bottom(a), b.y, Bottom(b)), p.y - q.y);
      forall s, t | In(s, a) && In(t, b) ensures SquaredDistance(s, t) >= RectangleClearance(a, b).squared {
        ClearanceLowerBound(a, b, s, t);
      }
    }
  }

  lemma SquareSame(a: int, b: int)
    requires a == b || a == -b
    ensures a * a == b * b
  {
  }

  // ----- the search -----

  function Steps(v: int, end: int, grid: int): seq<int>
    requires grid > 0
    decreases end - v
  {
    if v > end then [] else [v] + Steps(v + grid, end, grid)
  }

  function Reversed(s: seq<int>): seq<int> {
    if s == [] then [] else Reversed(s[1..]) + [s[0]]
  }

  function OffCenter(v: int, start: int, end: int): int {
    Abs(2 * v - (start + end))
  }

  function NearerCenter(start: int, end: int): (int, int) -> bool {
    (a: int, b: int) =>
      OffCenter(a, start, end) < OffCenter(b, start, end) ||
        (OffCenter(a, start, end) == OffCenter(b, start, end) && a <= b)
  }

  function CoordinateValues(start: int, end: int, grid: int, side: Side): seq<int>
    requires grid > 0
  {
    var values := Steps(SnapToGrid(start, grid), end, grid);
    match side
    case Start => values
    case End => Reversed(values)
    case Center => SortBy(NearerCenter(start, end), values)
  }

  method PreferredCoordinateValues(start: int, end: int, grid: int, side: Side) returns (values: seq<int>)
    requires grid > 0
    ensures values == CoordinateValues(start, end, grid, side)
  {
    values := [];
    var value := SnapToGrid(start, grid);
    while value <= end
      invariant values + Steps(value, end, grid) == Steps(SnapToGrid(start, grid), end, grid)
      decreases end - value
    {
      assert values + ([value] + Steps(value + grid, end, grid)) == values + [value] + Steps(value + grid, end, grid);
      values := values + [value];
      value := value + grid;
    }
    assert values + [] == values;
    if side == End {
      values := Reversed(values);
    } else if side == Center {
      values := SortBy(NearerCenter(start, end), values);
    }
  }

  /** a stands before b in the preferred direction. */
  predicate Nearer(side: Side, start: int, end: int, a: int, b: int) {
    match side
    case Start => a < b
    case End => b < a
    case Center =>
      OffCenter(a, start, end) < OffCenter(b, start, end) ||
        (OffCenter(a, start, end) == OffCenter(b, start, end) && a < b)
  }

  lemma {:induction false} StepsExact(v: int, end: int, grid: int)
    requires grid > 0 && Aligned(v, grid)
    ensures forall x :: x in Steps(v, end, grid) <==> Aligned(x, grid) && v <= x <= end
    ensures forall i, j :: 0 <= i < j < |Steps(v, end, grid)| ==> Steps(v, end, grid)[i] < Steps(v, end, grid)[j]
    decreases end - v
  {
    if v <= end {
      MultipleAligned(1, grid);
      AlignedAdd(v, grid, grid);
      StepsExact(v + grid, end, grid);
      var rest := Steps(v + grid, end, grid);
      assert Steps(v, end, grid) == [v] + rest;
      forall x ensures x in [v] + rest <==> Aligned(x, grid) && v <= x <= end {
        if Aligned(x, grid) && v < x {
          AlignedGap(v, x, grid);
        }
      }
      forall j | 0 <= j < |rest| ensures v < rest[j] {
        assert rest[j] in rest;
      }
    }
  }

  lemma {:induction false} ReversedExact(s: seq<int>)
    ensures |Reversed(s)| == |s| && forall k :: 0 <= k < |s| ==> Reversed(s)[k] == s[|s| - 1 - k]
  {
    if s != [] {
      ReversedExact(s[1..]);
    }
  }

  /** The values tried on one axis: every multiple from the snapped start to the end, each
      once, the preferred ones first. */
  lemma ValuesExact(start: int, end: int, grid: int, side: Side)
    requires grid > 0
    ensures var values := CoordinateValues(start, end, grid, side);
      && (forall x :: x in values <==> Aligned(x, grid) && SnapToGrid(start, grid) <= x <= end)
      && (forall i, j :: 0 <= i < j < |values| ==> Nearer(side, start, end, values[i], values[j]))
  {
    SnapNearest(start, grid);
    var steps := Steps(SnapToGrid(start, grid), end, grid);
    StepsExact(SnapToGrid(start, grid), end, grid);
    match side
    case Start =>
    case End =>
      ReversedExact(steps);
      forall x ensures x in Reversed(steps) <==> x in steps {
        if x in steps {
          var k :| 0 <= k < |steps| && steps[k] == x;
          assert Reversed(steps)[|steps| - 1 - k] == x;
        }
      }
    case Center =>
      CenterOrdered(start, end, steps);
  }

  lemma CenterOrdered(start: int, end: int, steps: seq<int>)
    requires Distinct(steps)
    ensures var sorted := SortBy(NearerCenter(start, end), steps);
      && (forall x :: x in sorted <==> x in steps)
      && (forall i, j :: 0 <= i < j < |sorted| ==> Nearer(Center, start, end, sorted[i], sorted[j]))
  {
    var le := NearerCenter(start, end);
    var sorted := SortBy(le, steps);
    SortPermutes(le, steps);
    MultisetMembers(sorted, steps);
    SortOrdered(le, steps);
    DistinctMultiset(steps, sorted);
    forall i, j | 0 <= i < j < |sorted| ensures Nearer(Center, start, end, sorted[i], sorted[j]) {
      assert le(sorted[i], sorted[j]);
    }
  }

  function SearchGrid(input: Input): (grid: int)
    ensures grid >= UNIT
  {
    Max(UNIT, input.sheet.grid)
  }

  function VerticalSide(level: Level, yDown: bool): Side {
    match level
    case Middle => Center
    case Upper => if yDown then Start else End
    case Lower => if yDown then End else Start
  }

  function Wanted(input: Input): Preference {
    if input.preference.Some? then input.preference.value else Preference(Start, Upper)
  }

  /** The range of one origin coordinate: from `LowX` to `HighX`, and likewise for y. */
  function LowX(input: Input): int {
    input.sheet.drawable.x - (input.candidate.bounds.x - input.candidate.origin.x)
  }

  function LowY(input: Input): int {
    input.sheet.drawable.y - (input.candidate.bounds.y - input.candidate.origin.y)
  }

  function HighX(input: Input): int {
    Right(input.sheet.drawable) - input.candidate.bounds.width - (input.candidate.bounds.x - input.candidate.origin.x)
  }

  function HighY(input: Input): int {
    Bottom(input.sheet.drawable) - input.candidate.bounds.height - (input.candidate.bounds.y - input.candidate.origin.y)
  }

  function SearchXs(input: Input): seq<int> {
    CoordinateValues(LowX(input), HighX(input), SearchGrid(input), Wanted(input).horizontal)
  }

  function SearchYs(input: Input): seq<int> {
    CoordinateValues(LowY(input), HighY(input), SearchGrid(input),
      VerticalSide(Wanted(input).vertical, input.sheet.yDown))
  }

  function Row(xs: seq<int>, y: int): seq<Position> {
    if xs == [] then [] else [Position(xs[0], y)] + Row(xs[1..], y)
  }

  function Origins(xs: seq<int>, ys: seq<int>): seq<Position> {
    if ys == [] then [] else Row(xs, ys[0]) + Origins(xs, ys[1..])
  }

  /** The candidate moved to another origin. */
  function At(input: Input, p: Position): Candidate {
    var c := input.candidate;
    Candidate(p, c.rotation, Translate(c.bounds, p.x - c.origin.x, p.y - c.origin.y))
  }

  function Maximum(input: Input): (n: int)
    ensures n >= 1
  {
    Max(1, if input.maxAlternatives.Some? then input.maxAlternatives.value else 3)
  }

  /** The first `n` elements of s that satisfy `ok`. */
  function FirstThat<T>(ok: T -> bool, s: seq<T>, n: nat): seq<T> {
    if n == 0 || s == [] then []
    else if ok(s[0]) then [s[0]] + FirstThat(ok, s[1..], n - 1)
    else FirstThat(ok, s[1..], n)
  }

  /** How many elements are looked at to find them. */
  function LookedAt<T>(ok: T -> bool, s: seq<T>, n: nat): nat {
    if n == 0 || s == [] then 0 else 1 + LookedAt(ok, s[1..], if ok(s[0]) then n - 1 else n)
  }

  function Accepts(less: Less, input: Input): Position -> bool {
    (p: Position) => Checked(less, input, At(input, p)).accepted
  }

  function SearchOrigins(input: Input): seq<Position> {
    Origins(SearchXs(input), SearchYs(input))
  }

  function Moved(input: Input, origins: seq<Position>): (r: seq<Candidate>)
    ensures |r| == |origins|
  {
    seq(|origins|, i requires 0 <= i < |origins| => At(input, origins[i]))
  }

  lemma MovedAppend(input: Input, origins: seq<Position>, p: Position)
    ensures Moved(input, origins + [p]) == Moved(input, origins) + [At(input, p)]
  {
  }

  method CandidateSearch(less: Less, input: Input) returns (alternatives: seq<Candidate>, searched: nat)
    ensures alternatives == Moved(input, FirstThat(Accepts(less, input), SearchOrigins(input), Maximum(input)))
    ensures searched == LookedAt(Accepts(less, input), SearchOrigins(input), Maximum(input))
  {
    var grid := SearchGrid(input);
    var vertical := VerticalSide(Wanted(input).vertical, input.sheet.yDown);
    var xs := PreferredCoordinateValues(LowX(input), HighX(input), grid, Wanted(input).horizontal);
    var ys := PreferredCoordinateValues(LowY(input), HighY(input), grid, vertical);
    alternatives, searched := SearchRows(Accepts(less, input), input, xs, ys, Maximum(input));
  }

  /** The two loops of candidateSearch: every x of a row before the next y. */
  method SearchRows(ok: Position -> bool, input: Input, xs: seq<int>, ys: seq<int>, maximum: nat)
    returns (alternatives: seq<Candidate>, searched: nat)
    requires maximum >= 1
    ensures alternatives == Moved(input, FirstThat(ok, Origins(xs, ys), maximum))
    ensures searched == LookedAt(ok, Origins(xs, ys), maximum)
  {
    alternatives, searched := [], 0;
    ghost var all := Origins(xs, ys);
    ghost var found: seq<Position> := [];
    for j := 0 to |ys|
      invariant |found| < maximum && alternatives == Moved(input, found)
      invariant Remaining(ok, all, maximum, found, searched, Origins(xs, ys[j..]))
    {
      RestOfRow(xs, ys, 0, j);
      for i := 0 to |xs|
        invariant |found| < maximum && alternatives == Moved(input, found)
        invariant Remaining(ok, all, maximum, found, searched, Rest(xs, ys, i, j))
      {
        RestOfRow(xs, ys, i, j);
        var origin := Position(xs[i], ys[j]);
        LookNext(ok, all, maximum, found, searched, origin, Rest(xs, ys, i + 1, j));
        searched := searched + 1;
        if ok(origin) {
          MovedAppend(input, found, origin);
          alternatives := alternatives + [At(input, origin)];
          found := found + [origin];
        }
        if |alternatives| >= maximum {
          Finished(ok, all, maximum, found, searched, Rest(xs, ys, i + 1, j));
          return;
        }
      }
      RestOfRow(xs, ys, |xs|, j);
    }
    Finished(ok, all, maximum, found, searched, []);
  }

  /** What is left to try at column i of row j. */
  function Rest(xs: seq<int>, ys: seq<int>, i: nat, j: nat): seq<Position>
    requires i <= |xs| && j < |ys|
  {
    Row(xs[i..], ys[j]) + Origins(xs, ys[j + 1..])
  }

  lemma RowNext(xs: seq<int>, ys: seq<int>, i: nat, j: nat)
    requires i < |xs| && j < |ys|
    ensures Rest(xs, ys, i, j) == [Position(xs[i], ys[j])] + Rest(xs, ys, i + 1, j)
  {
    assert xs[i..][1..] == xs[i + 1..];
    assert Row(xs[i..], ys[j]) == [Position(xs[i], ys[j])] + Row(xs[i + 1..], ys[j]);
  }

  lemma RowWhole(xs: seq<int>, ys: seq<int>, j: nat)
    requires j < |ys|
    ensures Origins(xs, ys[j..]) == Rest(xs, ys, 0, j)
  {
    assert ys[j..][1..] == ys[j + 1..] && xs[0..] == xs;
  }

  lemma RowDone(xs: seq<int>, ys: seq<int>, j: nat)
    requires j < |ys|
    ensures Rest(xs, ys, |xs|, j) == Origins(xs, ys[j + 1..])
  {
    assert xs[|xs|..] == [];
  }

  lemma RestOfRow(xs: seq<int>, ys: seq<int>, i: nat, j: nat)
    requires i <= |xs| && j < |ys|
    ensures i == 0 ==> Origins(xs, ys[j..]) == Rest(xs, ys, i, j)
    ensures i < |xs| ==> Rest(xs, ys, i, j) == [Position(xs[i], ys[j])] + Rest(xs, ys, i + 1, j)
    ensures i == |xs| ==> Rest(xs, ys, i, j) == Origins(xs, ys[j + 1..])
  {
    RowWhole(xs, ys, j);
    RowDone(xs, ys, j);
    if i < |xs| {
      RowNext(xs, ys, i, j);
    }
  }

  /** Searching on from here gives what searching all the origins gives. */
  ghost predicate Remaining<T>(ok: T -> bool, all: seq<T>, maximum: nat, found: seq<T>, searched: nat, rest: seq<T>)
    requires |found| <= maximum
  {
    && FirstThat(ok, all, maximum) == found + FirstThat(ok, rest, maximum - |found|)
    && LookedAt(ok, all, maximum) == searched + LookedAt(ok, rest, maximum - |found|)
  }

  lemma LookNext<T>(ok: T -> bool, all: seq<T>, maximum: nat, found: seq<T>, searched: nat, x: T, rest: seq<T>)
    requires |found| < maximum && Remaining(ok, all, maximum, found, searched, [x] + rest)
    ensures Remaining(ok, all, maximum, if ok(x) then found + [x] else found, searched + 1, rest)
  {
    var n := maximum - |found|;
    assert ([x] + rest)[1..] == rest;
    assert found + ([x] + FirstThat(ok, rest, n - 1)) == found + [x] + FirstThat(ok, rest, n - 1);
  }

  lemma Finished<T>(ok: T -> bool, all: seq<T>, maximum: nat, found: seq<T>, searched: nat, rest: seq<T>)
    requires |found| <= maximum && Remaining(ok, all, maximum, found, searched, rest)
    requires |found| == maximum || rest == []
    ensures found == FirstThat(ok, all, maximum) && searched == LookedAt(ok, all, maximum)
  {
    assert found + [] == found;
  }

  function PlacementResult(less: Less, input: Input): Result {
    var check := Checked(less, input, input.candidate);
    if check.accepted then Result(check, [], None)
    else
      var found := FirstThat(Accepts(less, input), SearchOrigins(input), Maximum(input));
      var searched := LookedAt(Accepts(less, input), SearchOrigins(input), Maximum(input));
      if |found| > 0 then Result(check, Moved(input, found), None)
      else Result(check, [], Some(NoFeasiblePosition(set c | c in check.conflicts :: c.code, searched)))
  }

  method CheckPlacement(less: Less, input: Input) returns (result: Result)
    ensures result == PlacementResult(less, input)
  {
    var check := CheckCandidate(less, input, input.candidate);
    if check.accepted {
      return Result(check, [], None);
    }
    var found, searched := CandidateSearch(less, input);
    if |found| > 0 {
      return Result(check, found, None);
    }
    result := Result(check, [], Some(NoFeasiblePosition(set c | c in check.conflicts :: c.code, searched)));
  }

  // ----- what the search finds -----

  /** p is tried before q: rows by preferred y, within a row by preferred x. */
  predicate Before(input: Input, p: Position, q: Position) {
    || Nearer(VerticalSide(Wanted(input).vertical, input.sheet.yDown), LowY(input), HighY(input), p.y, q.y)
    || (p.y == q.y && Nearer(Wanted(input).horizontal, LowX(input), HighX(input), p.x, q.x))
  }

  predicate OnGrid(input: Input, p: Position) {
    Aligned(p.x, SearchGrid(input)) && Aligned(p.y, SearchGrid(input))
  }

  ghost predicate Feasible(input: Input, p: Position) {
    OnGrid(input, p) && Clear(input, At(input, p).bounds)
  }

  lemma {:induction false} RowExact(xs: seq<int>, y: int)
    ensures |Row(xs, y)| == |xs| && forall k :: 0 <= k < |xs| ==> Row(xs, y)[k] == Position(xs[k], y)
  {
    if xs != [] {
      RowExact(xs[1..], y);
    }
  }

  lemma {:induction false} OriginsExact(xs: seq<int>, ys: seq<int>)
    ensures forall p: Position :: p in Origins(xs, ys) <==> p.x in xs && p.y in ys
  {
    if ys != [] {
      RowExact(xs, ys[0]);
      OriginsExact(xs, ys[1..]);
      var row, rest := Row(xs, ys[0]), Origins(xs, ys[1..]);
      forall p: Position ensures p in row + rest <==> p.x in xs && p.y in ys {
        if p.x in xs && p.y == ys[0] {
          var k :| 0 <= k < |xs| && xs[k] == p.x;
          assert row[k] == p;
        }
        assert p.y in ys <==> p.y == ys[0] || p.y in ys[1..];
      }
    }
  }

  function Precedes(input: Input): (Position, Position) -> bool {
    (p: Position, q: Position) => Before(input, p, q)
  }

  ghost predicate InOrder<T(!new)>(before: (T, T) -> bool, s: seq<T>) {
    forall i, j :: 0 <= i < j < |s| ==> before(s[i], s[j])
  }

  lemma {:induction false} OriginsOrdered(input: Input, xs: seq<int>, ys: seq<int>)
    requires forall i, j :: 0 <= i < j < |xs| ==>
      Nearer(Wanted(input).horizontal, LowX(input), HighX(input), xs[i], xs[j])
    requires forall i, j :: 0 <= i < j < |ys| ==>
      Nearer(VerticalSide(Wanted(input).vertical, input.sheet.yDown), LowY(input), HighY(input), ys[i], ys[j])
    ensures InOrder(Precedes(input), Origins(xs, ys))
  {
    if ys != [] {
      RowExact(xs, ys[0]);
      OriginsOrdered(input, xs, ys[1..]);
      OriginsExact(xs, ys[1..]);
      var row, rest := Row(xs, ys[0]), Origins(xs, ys[1..]);
      forall p, q | p in row && q in rest ensures Before(input, p, q) {
        var k :| 0 <= k < |ys[1..]| && ys[1..][k] == q.y;
        assert ys[k + 1] == q.y;
      }
      forall i, j | 0 <= i < j < |row + rest| ensures Before(input, (row + rest)[i], (row + rest)[j]) {
        if i < |row| <= j {
          assert row[i] in row && rest[j - |row|] in rest;
        }
      }
    }
  }

  /** The tried origins include every feasible one, in preference order. */
  lemma SearchCovers(input: Input)
    ensures InOrder(Precedes(input), SearchOrigins(input))
    ensures forall p :: p in SearchOrigins(input) ==> OnGrid(input, p)
    ensures forall p :: Feasible(input, p) ==> p in SearchOrigins(input)
  {
    var grid := SearchGrid(input);
    var xs, ys := SearchXs(input), SearchYs(input);
    ValuesExact(LowX(input), HighX(input), grid, Wanted(input).horizontal);
    ValuesExact(LowY(input), HighY(input), grid, VerticalSide(Wanted(input).vertical, input.sheet.yDown));
    OriginsExact(xs, ys);
    OriginsOrdered(input, xs, ys);
    forall p | Feasible(input, p) ensures p in Origins(xs, ys) {
      SnapBelow(p.x, LowX(input), grid);
      SnapBelow(p.y, LowY(input), grid);
    }
  }

  lemma SnapBelow(v: int, start: int, grid: int)
    requires grid > 0 && Aligned(v, grid) && start <= v
    ensures SnapToGrid(start, grid) <= v
  {
    SnapNearest(start, grid);
    if v < SnapToGrid(start, grid) {
      AlignedGap(v, SnapToGrid(start, grid), grid);
    }
  }

  lemma HeadBefore<T(!new)>(before: (T, T) -> bool, s: seq<T>)
    requires s != [] && InOrder(before, s)
    ensures InOrder(before, s[1..])
    ensures forall x :: x in s <==> x == s[0] || x in s[1..]
    ensures forall x :: x in s[1..] ==> before(s[0], x)
  {
    forall x | x in s[1..] ensures before(s[0], x) {
      var k :| 0 <= k < |s[1..]| && s[1..][k] == x;
      assert s[k + 1] == x;
    }
  }

  lemma {:induction false} FoundOk<T>(ok: T -> bool, s: seq<T>, n: nat)
    ensures |FirstThat(ok, s, n)| <= n
    ensures forall x :: x in FirstThat(ok, s, n) ==> x in s && ok(x)
  {
    if n > 0 && s != [] {
      FoundOk(ok, s[1..], if ok(s[0]) then n - 1 else n);
    }
  }

  lemma {:induction false} FoundInOrder<T(!new)>(before: (T, T) -> bool, ok: T -> bool, s: seq<T>, n: nat)
    requires InOrder(before, s)
    ensures InOrder(before, FirstThat(ok, s, n))
  {
    if n > 0 && s != [] {
      HeadBefore(before, s);
      var more := if ok(s[0]) then n - 1 else n;
      FoundInOrder(before, ok, s[1..], more);
      FoundOk(ok, s[1..], more);
    }
  }

  /** x is found, or `n` better ones are. */
  ghost predicate Accounted<T(!new)>(before: (T, T) -> bool, found: seq<T>, n: nat, x: T) {
    x in found || (|found| == n && forall y :: y in found ==> before(y, x))
  }

  lemma {:induction false} FoundComplete<T(!new)>(before: (T, T) -> bool, ok: T -> bool, s: seq<T>, n: nat, x: T)
    requires InOrder(before, s) && x in s && ok(x)
    ensures Accounted(before, FirstThat(ok, s, n), n, x)
  {
    if n > 0 {
      HeadBefore(before, s);
      if x == s[0] {
        assert FirstThat(ok, s, n)[0] == x;
      } else {
        FoundComplete(before, ok, s[1..], if ok(s[0]) then n - 1 else n, x);
      }
    }
  }

  /** The alternatives of a rejected candidate are feasible grid positions in preference
      order, and a feasible position is left out only behind `Maximum` better ones. */
  lemma AlternativesExact(less: Less, input: Input) returns (found: seq<Position>)
    requires !Checked(less, input, input.candidate).accepted
    ensures PlacementResult(less, input).alternatives == Moved(input, found) && |found| <= Maximum(input)
    ensures forall p :: p in found ==> Feasible(input, p)
    ensures InOrder(Precedes(input), found)
    ensures forall p :: Feasible(input, p) ==> Accounted(Precedes(input), found, Maximum(input), p)
  {
    var ok := Accepts(less, input);
    found := FirstThat(ok, SearchOrigins(input), Maximum(input));
    SearchCovers(input);
    FoundOk(ok, SearchOrigins(input), Maximum(input));
    FoundInOrder(Precedes(input), ok, SearchOrigins(input), Maximum(input));
    forall p ensures ok(p) <==> Clear(input, At(input, p).bounds) {
      AcceptedIff(less, input, At(input, p));
    }
    forall p | Feasible(input, p) ensures Accounted(Precedes(input), found, Maximum(input), p) {
      FoundComplete(Precedes(input), ok, SearchOrigins(input), Maximum(input), p);
    }
  }

  /** NO_FEASIBLE_POSITION is returned exactly when the candidate is not clear and no grid
      origin is. */
  lemma NoFeasiblePositionIff(less: Less, input: Input)
    ensures PlacementResult(less, input).failure.Some? <==>
      !Clear(input, input.candidate.bounds) && forall p :: !Feasible(input, p)
  {
    AcceptedIff(less, input, input.candidate);
    if !Checked(less, input, input.candidate).accepted {
      var found := AlternativesExact(less, input);
      assert PlacementResult(less, input).failure.Some? <==> found == [] by {
        assert |Moved(input, found)| == |found|;
      }
      if found != [] {
        assert found[0] in found;
      } else {
        NoneAccounted(Precedes(input), found, Maximum(input));
      }
    }
  }

  lemma NoneAccounted<T(!new)>(before: (T, T) -> bool, found: seq<T>, n: nat)
    requires found == [] && n > 0
    ensures forall x :: !Accounted(before, found, n, x)
  {
  }
}
