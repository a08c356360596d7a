/** What a placement check says, in terms of the sheet, the regions and the places themselves. */
module PlacementMeaning {
  import opened Basics
  import opened SchematicGeometry
  import opened Placement

  // ----- clear of the border and of every region -----

  /** The two bounds have an open rectangle in common. */
  predicate ShareInterior(a: Bounds, b: Bounds) {
    && Max(a.x, b.x) < Min(a.x + a.width, b.x + b.width)
    && Max(a.y, b.y) < Min(a.y + a.height, b.y + b.height)
  }

  /** No common interior, and no two points nearer than the minimum. */
  ghost predicate KeepsOff(a: Bounds, b: Bounds, minimum: int) {
    && !ShareInterior(a, b)
    && forall p, q :: In(p, a) && In(q, b) ==> SquaredDistance(p, q) >= minimum * minimum
  }

  predicate Real(b: Bounds) {
    b.width >= 0 && b.height >= 0
  }

  lemma SquareNotNegative(v: int)
    ensures v * v >= 0
    ensures v != 0 ==> v * v > 0
  {
    if v != 0 {
      SquareMonotone(1, v);
    }
  }

  lemma DistanceNotNegative(p: Position, q: Position)
    ensures SquaredDistance(p, q) >= 0 && SquaredDistance(p, p) == 0
  {
    SquareNotNegative(p.x - q.x);
    SquareNotNegative(p.y - q.y);
  }

  lemma OverlapDepth(a: Bounds, b: Bounds)
    requires Real(a) && Real(b)
    ensures RectangleClearance(a, b).Overlapping? ==>
      RectangleClearance(a, b).depth >= 0 && (RectangleClearance(a, b).depth > 0 <==> ShareInterior(a, b))
    ensures RectangleClearance(a, b).Apart? ==> !ShareInterior(a, b)
  {
  }

  lemma OverlappingMeans(a: Bounds, b: Bounds, p: Position, minimum: int)
    requires Real(a) && Real(b) && minimum >= 0 && RectangleClearance(a, b).Overlapping? && In(p, a) && In(p, b)
    ensures Sufficient(RectangleClearance(a, b), minimum) <==> KeepsOff(a, b, minimum)
  {
    OverlapDepth(a, b);
    DistanceNotNegative(p, p);
    SquareNotNegative(minimum);
    forall s, t ensures SquaredDistance(s, t) >= 0 {
      DistanceNotNegative(s, t);
    }
  }

  lemma SufficientMeans(a: Bounds, b: Bounds, minimum: int)
    requires Real(a) && Real(b) && minimum >= 0
    ensures Sufficient(RectangleClearance(a, b), minimum) <==> KeepsOff(a, b, minimum)
  {
    var p, q := ClearanceIsDistance(a, b);
    if RectangleClearance(a, b).Overlapping? {
      OverlappingMeans(a, b, p, minimum);
    } else {
      OverlapDepth(a, b);
    }
  }

  /** The clearance asked for: the given one, else one grid step, and never less than nothing. */
  function Asked(input: Input): int {
    var m := if input.minimumClearance.Some? then input.minimumClearance.value else input.sheet.grid;
    if m < 0 then 0 else m
  }

  /** At least the minimum inside the drawable area on every side. */
  predicate WithinBorder(b: Bounds, drawable: Bounds, minimum: int) {
    && b.x >= drawable.x + minimum && b.x + b.width <= drawable.x + drawable.width - minimum
    && b.y >= drawable.y + minimum && b.y + b.height <= drawable.y + drawable.height - minimum
  }

  /** The title block, the keep-outs, the reserved and the occupied regions. */
  predicate IsRegion(input: Input, r: Region) {
    || (input.sheet.titleBlock.Some? && r == Region("sheet-title-block", TitleBlock, input.sheet.titleBlock.value))
    || r in input.hardKeepouts || r in input.reserved || r in input.occupied
  }

  ghost predicate RealRegions(input: Input) {
    forall r :: IsRegion(input, r) ==> Real(r.bounds)
  }

  lemma RegionsMean(input: Input, r: Region)
    ensures r in UnsortedRegions(input) <==> IsRegion(input, r)
  {
  }

  /** Acceptance in plain terms. */
  lemma AcceptedMeans(less: Less, input: Input, candidate: Candidate)
    requires Real(candidate.bounds) && RealRegions(input)
    ensures Checked(less, input, candidate).accepted <==>
      && WithinBorder(candidate.bounds, input.sheet.drawable, Asked(input))
      && forall r :: IsRegion(input, r) ==> KeepsOff(candidate.bounds, r.bounds, Asked(input))
  {
    AcceptedIff(less, input, candidate);
    ClearMeans(input, candidate.bounds);
  }

  lemma ClearMeans(input: Input, b: Bounds)
    requires Real(b) && RealRegions(input)
    ensures Clear(input, b) <==>
      && WithinBorder(b, input.sheet.drawable, Asked(input))
      && forall r :: IsRegion(input, r) ==> KeepsOff(b, r.bounds, Asked(input))
  {
    forall r: Region | IsRegion(input, r)
      ensures r in UnsortedRegions(input)
      ensures Sufficient(RectangleClearance(b, r.bounds), Minimum(input)) <==> KeepsOff(b, r.bounds, Asked(input))
    {
      RegionsMean(input, r);
      SufficientMeans(b, r.bounds, Asked(input));
    }
    forall r | r in UnsortedRegions(input) ensures IsRegion(input, r) {
      RegionsMean(input, r);
    }
  }

  // ----- the reasons of a refusal -----

  /** The code a region adds: that of its kind if the bounds hit it, else the clearance if they are too near. */
  ghost predicate Earns(b: Bounds, r: Region, minimum: int, code: Code) {
    match code
    case TitleBlockKeepOut => r.kind == TitleBlock && ShareInterior(b, r.bounds)
    case PageBorderKeepOut => r.kind == PageBorder && ShareInterior(b, r.bounds)
    case CallerReservedRegion => r.kind == CallerReserved && ShareInterior(b, r.bounds)
    case SupportReserved => r.kind == SupportReservation && ShareInterior(b, r.bounds)
    case ExistingObjectOccupied => r.kind == ExistingObject && ShareInterior(b, r.bounds)
    case MinimumClearance => !ShareInterior(b, r.bounds) && !KeepsOff(b, r.bounds, minimum)
  }

  /** The conflict that is listed for the region. */
  predicate Lists(b: Bounds, r: Region, minimum: int, code: Code) {
    !Sufficient(RectangleClearance(b, r.bounds), minimum)
    && ConflictCode(r.kind, RectangleClearance(b, r.bounds)) == code
  }

  lemma ListsMeans(b: Bounds, r: Region, minimum: int, code: Code)
    requires Real(b) && Real(r.bounds) && minimum >= 0
    ensures Lists(b, r, minimum, code) <==> Earns(b, r, minimum, code)
  {
    SufficientMeans(b, r.bounds, minimum);
    OverlapDepth(b, r.bounds);
  }

  ghost predicate HasCode(conflicts: seq<Conflict>, code: Code) {
    exists k :: 0 <= k < |conflicts| && conflicts[k].code == code
  }

  lemma CodesJoined(a: seq<Conflict>, b: seq<Conflict>, code: Code)
    ensures HasCode(a + b, code) <==> HasCode(a, code) || HasCode(b, code)
  {
    if k :| 0 <= k < |a| && a[k].code == code {
      assert (a + b)[k].code == code;
    }
    if k :| 0 <= k < |b| && b[k].code == code {
      assert (a + b)[|a| + k].code == code;
    }
  }

  lemma {:induction false} RegionCodes(regions: seq<Region>, b: Bounds, minimum: int, code: Code)
    ensures HasCode(RegionConflicts(regions, b, minimum), code) <==>
      exists r :: r in regions && Lists(b, r, minimum, code)
  {
    if regions != [] {
      var n := |regions| - 1;
      var last := RegionConflicts(regions, b, minimum)[|RegionConflicts(regions[..n], b, minimum)|..];
      RegionCodes(regions[..n], b, minimum, code);
      CodesJoined(RegionConflicts(regions[..n], b, minimum), last, code);
      assert HasCode(last, code) <==> Lists(b, regions[n], minimum, code) by {
        if last != [] {
          assert last[0].code == ConflictCode(regions[n].kind, RectangleClearance(b, regions[n].bounds));
        }
      }
      assert regions == regions[..n] + [regions[n]];
    }
  }

  /** Why bounds are refused: they leave the drawable area, come too near to its border, or have trouble with a
      region. */
  ghost predicate Reason(input: Input, b: Bounds, code: Code) {
    || (code == PageBorderKeepOut && !WithinBorder(b, input.sheet.drawable, 0))
    || (code == MinimumClearance && WithinBorder(b, input.sheet.drawable, 0)
        && !WithinBorder(b, input.sheet.drawable, Asked(input)))
    || exists r :: IsRegion(input, r) && Earns(b, r, Asked(input), code)
  }

  lemma BorderCodes(input: Input, b: Bounds, code: Code)
    ensures HasCode(BorderConflicts(input, b), code) <==>
      || (code == PageBorderKeepOut && !WithinBorder(b, input.sheet.drawable, 0))
      || (code == MinimumClearance && WithinBorder(b, input.sheet.drawable, 0)
          && !WithinBorder(b, input.sheet.drawable, Asked(input)))
  {
    var conflicts := BorderConflicts(input, b);
    if conflicts != [] {
      assert conflicts[0].code == if WithinBorder(b, input.sheet.drawable, 0) then MinimumClearance
        else PageBorderKeepOut;
    }
  }

  /** The codes of a check are exactly the reasons there are. */
  lemma CodesMean(less: Less, input: Input, candidate: Candidate, code: Code)
    requires Real(candidate.bounds) && RealRegions(input)
    ensures HasCode(Checked(less, input, candidate).conflicts, code) <==> Reason(input, candidate.bounds, code)
  {
    var b, m, regions := candidate.bounds, Minimum(input), AllRegions(less, input);
    SortPermutes(ById(less), UnsortedRegions(input));
    MultisetMembers(regions, UnsortedRegions(input));
    RegionCodes(regions, b, m, code);
    BorderCodes(input, b, code);
    CodesJoined(BorderConflicts(input, b), RegionConflicts(regions, b, m), code);
    forall r | IsRegion(input, r) || r in regions
      ensures IsRegion(input, r) && r in regions && (Lists(b, r, m, code) <==> Earns(b, r, Asked(input), code))
    {
      RegionsMean(input, r);
      ListsMeans(b, r, m, code);
    }
  }

  // ----- the places that are tried -----

  /** The bounds of the candidate with its origin at p. */
  function MovedTo(input: Input, p: Position): Bounds {
    var c := input.candidate;
    Bounds(c.bounds.x + (p.x - c.origin.x), c.bounds.y + (p.y - c.origin.y), c.bounds.width, c.bounds.height)
  }

  function Step(input: Input): (g: int)
    ensures g >= 1000
  {
    if input.sheet.grid > 1000 then input.sheet.grid else 1000
  }

  /** A grid origin whose bounds begin no more than half a step before the drawable area and end within it. */
  predicate Tried(input: Input, p: Position) {
    var b, d := MovedTo(input, p), input.sheet.drawable;
    && p.x % Step(input) == 0 && p.y % Step(input) == 0
    && 2 * (b.x - d.x) > -Step(input) && b.x + b.width <= d.x + d.width
    && 2 * (b.y - d.y) > -Step(input) && b.y + b.height <= d.y + d.height
  }

  lemma FromSnapped(v: int, start: int, grid: int)
    requires grid > 0 && Aligned(v, grid)
    ensures SnapToGrid(start, grid) <= v <==> 2 * (v - start) > -grid
  {
    SnapNearest(start, grid);
    if v < SnapToGrid(start, grid) {
      AlignedGap(v, SnapToGrid(start, grid), grid);
    }
  }

  lemma OriginsMean(input: Input, p: Position)
    ensures p in SearchOrigins(input) <==> Tried(input, p)
  {
    var grid := SearchGrid(input);
    ValuesExact(LowX(input), HighX(input), grid, Wanted(input).horizontal);
    ValuesExact(LowY(input), HighY(input), grid,
      VerticalSide(Wanted(input).vertical, input.sheet.yDown));
    OriginsExact(SearchXs(input), SearchYs(input));
    if Aligned(p.x, grid) && Aligned(p.y, grid) {
      FromSnapped(p.x, LowX(input), grid);
      FromSnapped(p.y, LowY(input), grid);
    }
  }

  lemma {:induction false} AllLookedAt<T>(ok: T -> bool, s: seq<T>, n: nat)
    requires n > 0 && FirstThat(ok, s, n) == []
    ensures LookedAt(ok, s, n) == |s|
  {
    if s != [] {
      AllLookedAt(ok, s[1..], n);
    }
  }

  /** A failure names exactly the reasons against the candidate, and its count is the number of grid origins
      there are. */
  lemma FailureMeans(less: Less, input: Input) returns (tried: seq<Position>)
    requires PlacementResult(less, input).failure.Some?
    requires Real(input.candidate.bounds) && RealRegions(input)
    ensures var f := PlacementResult(less, input).failure.value;
      && (forall code :: code in f.unsatisfied <==> Reason(input, input.candidate.bounds, code))
      && f.searched == |tried|
    ensures Distinct(tried) && forall p :: p in tried <==> Tried(input, p)
  {
    tried := SearchOrigins(input);
    var conflicts := Checked(less, input, input.candidate).conflicts;
    AllLookedAt(Accepts(less, input), tried, Maximum(input));
    forall code ensures code in PlacementResult(less, input).failure.value.unsatisfied <==>
      Reason(input, input.candidate.bounds, code)
    {
      CodesMean(less, input, input.candidate, code);
      if HasCode(conflicts, code) {
        var k :| 0 <= k < |conflicts| && conflicts[k].code == code;
        assert conflicts[k] in conflicts;
      }
    }
    SearchCovers(input);
    PrecedesIrreflexive(input);
    forall p ensures p in tried <==> Tried(input, p) {
      OriginsMean(input, p);
    }
  }

  lemma PrecedesIrreflexive(input: Input)
    ensures forall p :: !Precedes(input)(p, p)
  {
  }

  // ----- the preference -----

  /** Twice the distance of the middle of the bounds from the middle of the drawable area. */
  function OffMiddle(low: int, size: int, from: int, whole: int): int {
    Abs(2 * low + size - (2 * from + whole))
  }

  /** Of two different coordinates, low comes before other on this side. */
  predicate Nearest(side: Side, low: int, other: int, size: int, from: int, whole: int) {
    match side
    case Start => low < other
    case End => other < low
    case Center =>
      OffMiddle(low, size, from, whole) < OffMiddle(other, size, from, whole)
      || (OffMiddle(low, size, from, whole) == OffMiddle(other, size, from, whole) && low < other)
  }

  /** Bounds a are preferred to b: the row decides, then the place in it. Without a preference the upper left is. */
  predicate Preferred(input: Input, a: Bounds, b: Bounds) {
    var d := input.sheet.drawable;
    var across := if input.preference.Some? then input.preference.value.horizontal else Start;
    var level := if input.preference.Some? then input.preference.value.vertical else Upper;
    || (level == Middle && Nearest(Center, a.y, b.y, a.height, d.y, d.height))
    || (level != Middle && if (level == Upper) == input.sheet.yDown then a.y < b.y else a.y > b.y)
    || (a.y == b.y && Nearest(across, a.x, b.x, a.width, d.x, d.width))
  }

  lemma PreferredMeans(input: Input, p: Position, q: Position)
    ensures Before(input, p, q) <==> Preferred(input, MovedTo(input, p), MovedTo(input, q))
    ensures At(input, p).bounds == MovedTo(input, p)
  {
  }

  /** The place of grid origin p keeps off the border and every region. */
  ghost predicate FreePlace(input: Input, p: Position) {
    && p.x % Step(input) == 0 && p.y % Step(input) == 0
    && WithinBorder(MovedTo(input, p), input.sheet.drawable, Asked(input))
    && forall r :: IsRegion(input, r) ==> KeepsOff(MovedTo(input, p), r.bounds, Asked(input))
  }

  lemma FreeMeans(input: Input, p: Position)
    requires Real(input.candidate.bounds) && RealRegions(input)
    ensures Placement.Feasible(input, p) <==> FreePlace(input, p)
  {
    PreferredMeans(input, p, p);
    ClearMeans(input, MovedTo(input, p));
  }

  /** At most as many as asked for, three if nothing is asked, but at least one. */
  function Most(input: Input): (n: int)
    ensures n >= 1
  {
    var n := if input.maxAlternatives.Some? then input.maxAlternatives.value else 3;
    if n < 1 then 1 else n
  }

  /** The candidate as it was, moved to a free grid origin. */
  ghost predicate IsPlace(input: Input, c: Candidate, p: Position) {
    c == Candidate(p, input.candidate.rotation, MovedTo(input, p)) && FreePlace(input, p)
  }

  /** Main result on the search: the alternatives of a refused candidate are free grid places, the preferred ones
      first, and a free place is missing only if as many preferred ones as wanted are listed. */
  lemma AlternativesMean(less: Less, input: Input) returns (at: seq<Position>)
    requires !Checked(less, input, input.candidate).accepted
    requires Real(input.candidate.bounds) && RealRegions(input)
    ensures var alternatives := PlacementResult(less, input).alternatives;
      && |alternatives| == |at| <= Most(input)
      && (forall k :: 0 <= k < |at| ==> IsPlace(input, alternatives[k], at[k]))
      && (forall j, k :: 0 <= j < k < |at| ==> Preferred(input, MovedTo(input, at[j]), MovedTo(input, at[k])))
      && (forall p :: FreePlace(input, p) && p !in at ==>
            |at| == Most(input) && forall k :: 0 <= k < |at| ==>
              Preferred(input, MovedTo(input, at[k]), MovedTo(input, p)))
  {
    at := AlternativesExact(less, input);
    forall p ensures Placement.Feasible(input, p) <==> FreePlace(input, p) {
      FreeMeans(input, p);
    }
    forall p, q ensures Before(input, p, q) <==> Preferred(input, MovedTo(input, p), MovedTo(input, q)) {
      PreferredMeans(input, p, q);
    }
    forall k | 0 <= k < |at| ensures IsPlace(input, At(input, at[k]), at[k]) {
      assert at[k] in at;
    }
    forall j, k | 0 <= j < k < |at| ensures Preferred(input, MovedTo(input, at[j]), MovedTo(input, at[k])) {
      assert Precedes(input)(at[j], at[k]);
    }
    forall p | FreePlace(input, p) && p !in at
      ensures |at| == Most(input) && forall k :: 0 <= k < |at| ==>
        Preferred(input, MovedTo(input, at[k]), MovedTo(input, p))
    {
      assert Placement.Accounted(Precedes(input), at, Maximum(input), p);
      forall k | 0 <= k < |at| ensures Preferred(input, MovedTo(input, at[k]), MovedTo(input, p)) {
        assert at[k] in at;
        assert Precedes(input)(at[k], p);
      }
    }
  }
}
