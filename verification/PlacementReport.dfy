/** What a placement check reports: the clearances it measured and the conflicts it found, entry by entry. */
module PlacementReport {
  import opened Basics
  import opened SchematicGeometry
  import opened Placement
  import opened PlacementMeaning

  /** m is the least of the four distances of the edges of b from those of the sheet. */
  predicate NearestEdge(b: Bounds, sheet: Bounds, m: int) {
    var left, top := b.x - sheet.x, b.y - sheet.y;
    var right, bottom := sheet.x + sheet.width - (b.x + b.width), sheet.y + sheet.height - (b.y + b.height);
    m <= left && m <= top && m <= right && m <= bottom && (m == left || m == top || m == right || m == bottom)
  }

  // ----- the clearances -----

  predicate BorderMeasured(sheet: Bounds, b: Bounds, entry: Measure) {
    && entry.regionId == "sheet-drawable-bounds" && entry.kind == PageBorder
    && entry.clearance == Apart(Nearest(b, sheet) * Nearest(b, sheet))
  }

  function Nearest(b: Bounds, sheet: Bounds): (m: int)
    ensures NearestEdge(b, sheet, m)
  {
    Min(Min(b.x - sheet.x, b.y - sheet.y),
      Min(sheet.x + sheet.width - (b.x + b.width), sheet.y + sheet.height - (b.y + b.height)))
  }

  predicate Measured(b: Bounds, r: Region, entry: Measure) {
    entry == Measure(r.id, r.kind, RectangleClearance(b, r.bounds))
  }

  ghost predicate AllMeasured(b: Bounds, regions: seq<Region>, entries: seq<Measure>) {
    |entries| == |regions| && forall k :: 0 <= k < |regions| ==> Measured(b, regions[k], entries[k])
  }

  lemma {:induction false} RegionsMeasured(regions: seq<Region>, b: Bounds)
    ensures AllMeasured(b, regions, RegionMeasures(regions, b))
  {
    if regions != [] {
      var n := |regions| - 1;
      RegionsMeasured(regions[..n], b);
      var before := RegionMeasures(regions[..n], b);
      forall k | 0 <= k < n ensures Measured(b, regions[k], RegionMeasures(regions, b)[k]) {
        assert Measured(b, regions[..n][k], before[k]);
      }
    }
  }

  // ----- the conflicts -----

  /** The conflict of a region, with the code it earns. */
  ghost predicate Reported(b: Bounds, r: Region, minimum: int, entry: Conflict) {
    && entry == Conflict(entry.code, r.id, r.kind, r.bounds, RectangleClearance(b, r.bounds), minimum)
    && Earns(b, r, minimum, entry.code)
  }

  /** Region i comes nearer than the minimum. */
  ghost function TooNear(b: Bounds, regions: seq<Region>, minimum: int): nat -> bool {
    (i: nat) => i < |regions| && !KeepsOff(b, regions[i].bounds, minimum)
  }

  /** The entries are, in order, the conflicts of the regions at the given places. */
  ghost predicate AllReported(b: Bounds, regions: seq<Region>, minimum: int, at: seq<nat>, entries: seq<Conflict>) {
    && |entries| == |at|
    && forall k :: 0 <= k < |at| ==> at[k] < |regions| && Reported(b, regions[at[k]], minimum, entries[k])
  }

  ghost predicate AllReal(regions: seq<Region>) {
    forall k :: 0 <= k < |regions| ==> Real(regions[k].bounds)
  }

  lemma OneReported(b: Bounds, r: Region, minimum: int)
    requires Real(b) && Real(r.bounds) && minimum >= 0
    ensures var c := RectangleClearance(b, r.bounds);
      && (Sufficient(c, minimum) <==> KeepsOff(b, r.bounds, minimum))
      && (!Sufficient(c, minimum) ==>
           Reported(b, r, minimum, Conflict(ConflictCode(r.kind, c), r.id, r.kind, r.bounds, c, minimum)))
  {
    SufficientMeans(b, r.bounds, minimum);
    ListsMeans(b, r, minimum, ConflictCode(r.kind, RectangleClearance(b, r.bounds)));
  }

  lemma SelectsSame(at: seq<nat>, n: nat, ok: nat -> bool, other: nat -> bool)
    requires Selects(at, n, ok) && forall i: nat :: i < n ==> ok(i) == other(i)
    ensures Selects(at, n, other)
  {
  }

  lemma ReportedLater(b: Bounds, regions: seq<Region>, r: Region, minimum: int, at: seq<nat>, entries: seq<Conflict>)
    requires AllReported(b, regions, minimum, at, entries)
    ensures AllReported(b, regions + [r], minimum, at, entries)
  {
    forall k | 0 <= k < |at| ensures at[k] < |regions| && (regions + [r])[at[k]] == regions[at[k]] {
      assert at[k] < |regions| && Reported(b, regions[at[k]], minimum, entries[k]);
    }
  }

  lemma {:induction false} RegionsReported(regions: seq<Region>, b: Bounds, minimum: int) returns (at: seq<nat>)
    requires Real(b) && AllReal(regions) && minimum >= 0
    ensures Selects(at, |regions|, TooNear(b, regions, minimum))
    ensures AllReported(b, regions, minimum, at, RegionConflicts(regions, b, minimum))
  {
    at := [];
    if regions != [] {
      var n := |regions| - 1;
      at := RegionsReported(regions[..n], b, minimum);
      assert regions == regions[..n] + [regions[n]];
      ReportedLater(b, regions[..n], regions[n], minimum, at, RegionConflicts(regions[..n], b, minimum));
      SelectsSame(at, n, TooNear(b, regions[..n], minimum), TooNear(b, regions, minimum));
      SelectsNext(at, n, TooNear(b, regions, minimum));
      OneReported(b, regions[n], minimum);
      if TooNear(b, regions, minimum)(n) {
        at := at + [n];
      }
    }
  }

  /** The conflict with the border: outside the sheet by one unit, or nearer to an edge than the minimum. */
  ghost predicate BorderReported(sheet: Bounds, b: Bounds, minimum: int, entry: Conflict) {
    && entry.regionId == "sheet-drawable-bounds" && entry.kind == PageBorder && entry.bounds == sheet
    && entry.required == minimum
    && if WithinBorder(b, sheet, 0) then
         entry.code == MinimumClearance && entry.clearance == Apart(Nearest(b, sheet) * Nearest(b, sheet))
       else entry.code == PageBorderKeepOut && entry.clearance == Overlapping(1000)
  }

  lemma BorderMeans(input: Input, b: Bounds)
    ensures var sheet, measures, conflicts := input.sheet.drawable, BorderMeasures(input, b), BorderConflicts(input, b);
      && (if WithinBorder(b, sheet, 0) then |measures| == 1 && BorderMeasured(sheet, b, measures[0])
          else measures == [])
      && (if WithinBorder(b, sheet, Asked(input)) then conflicts == []
          else |conflicts| == 1 && BorderReported(sheet, b, Asked(input), conflicts[0]))
  {
  }

  // ----- the whole report -----

  /** The regions of sheet and request, as one list. */
  function Listed(input: Input): seq<Region> {
    var title := input.sheet.titleBlock;
    (if title.None? then [] else [Region("sheet-title-block", TitleBlock, title.value)])
    + input.hardKeepouts + input.reserved + input.occupied
  }

  /** The border first, if the bounds are inside it, then every region. */
  ghost predicate MeasuresAre(sheet: Bounds, b: Bounds, regions: seq<Region>, entries: seq<Measure>) {
    if WithinBorder(b, sheet, 0) then
      entries != [] && BorderMeasured(sheet, b, entries[0]) && AllMeasured(b, regions, entries[1..])
    else AllMeasured(b, regions, entries)
  }

  /** The border first, if there is trouble with it, then the regions at the given places. */
  ghost predicate ConflictsAre(sheet: Bounds, b: Bounds, minimum: int, regions: seq<Region>, at: seq<nat>,
                               entries: seq<Conflict>) {
    if WithinBorder(b, sheet, minimum) then AllReported(b, regions, minimum, at, entries)
    else
      entries != [] && BorderReported(sheet, b, minimum, entries[0])
      && AllReported(b, regions, minimum, at, entries[1..])
  }

  lemma MeasuresJoined(input: Input, b: Bounds, regions: seq<Region>)
    ensures MeasuresAre(input.sheet.drawable, b, regions, BorderMeasures(input, b) + RegionMeasures(regions, b))
  {
    var border, others := BorderMeasures(input, b), RegionMeasures(regions, b);
    BorderMeans(input, b);
    RegionsMeasured(regions, b);
    assert (border + others)[|border|..] == others;
  }

  lemma ConflictsJoined(input: Input, b: Bounds, regions: seq<Region>, at: seq<nat>)
    requires AllReported(b, regions, Asked(input), at, RegionConflicts(regions, b, Asked(input)))
    ensures ConflictsAre(input.sheet.drawable, b, Asked(input), regions, at,
      BorderConflicts(input, b) + RegionConflicts(regions, b, Minimum(input)))
  {
    var border, others := BorderConflicts(input, b), RegionConflicts(regions, b, Minimum(input));
    BorderMeans(input, b);
    assert (border + others)[|border|..] == others;
  }

  lemma RegionsListed(less: Less, input: Input)
    ensures multiset(AllRegions(less, input)) == multiset(Listed(input))
    ensures RealRegions(input) ==> AllReal(AllRegions(less, input))
  {
    var regions := AllRegions(less, input);
    SortPermutes(ById(less), UnsortedRegions(input));
    MultisetMembers(regions, UnsortedRegions(input));
    forall k | 0 <= k < |regions| && RealRegions(input) ensures Real(regions[k].bounds) {
      assert regions[k] in regions;
      RegionsMean(input, regions[k]);
    }
  }

  /** By id, and for one id in the order of the lists. */
  ghost predicate InIdOrder(less: Less, regions: seq<Region>, listed: seq<Region>) {
    && (forall i, j :: 0 <= i < j < |regions| ==> !less(regions[j].id, regions[i].id))
    && forall id :: Filter(OfId(id), regions) == Filter(OfId(id), listed)
  }

  function OfId(id: string): Region -> bool {
    (r: Region) => r.id == id
  }

  lemma IdOrderTotal(less: Less)
    requires StrictTotalOrder(less)
    ensures TotalPreorder(ById(less))
  {
    var le := ById(less);
    forall a, b ensures le(a, b) || le(b, a) {
      assert a.id == b.id || less(a.id, b.id) || less(b.id, a.id);
    }
    forall a, b, c | le(a, b) && le(b, c) ensures le(a, c) {
      assert !less(b.id, a.id) && !less(c.id, b.id);
      assert a.id == b.id || less(a.id, b.id);
      assert !less(c.id, a.id);
    }
  }

  lemma RegionsInOrder(less: Less, input: Input)
    requires StrictTotalOrder(less)
    ensures InIdOrder(less, AllRegions(less, input), Listed(input))
  {
    var regions := AllRegions(less, input);
    IdOrderTotal(less);
    SortOrdered(ById(less), UnsortedRegions(input));
    forall i, j | 0 <= i < j < |regions| ensures !less(regions[j].id, regions[i].id) {
      assert ById(less)(regions[i], regions[j]);
    }
    forall id ensures Filter(OfId(id), regions) == Filter(OfId(id), Listed(input)) {
      TiesKept(less, input, Region(id, PageBorder, input.sheet.drawable));
    }
  }

  lemma TiesKept(less: Less, input: Input, r: Region)
    requires StrictTotalOrder(less) && TotalPreorder(ById(less))
    ensures Filter(OfId(r.id), AllRegions(less, input)) == Filter(OfId(r.id), Listed(input))
  {
    SortStable(ById(less), UnsortedRegions(input), r);
    forall x ensures TiedWith(ById(less), r)(x) == OfId(r.id)(x) {
      assert x.id == r.id || less(x.id, r.id) || less(r.id, x.id);
    }
    FilterSame(TiedWith(ById(less), r), OfId(r.id), AllRegions(less, input));
    FilterSame(TiedWith(ById(less), r), OfId(r.id), Listed(input));
  }

  /** Main result on the check: it measures the border and every region, in the order of their ids and, for one
      id, of the lists; and it reports the border and exactly the regions that come too near, in the same order. */
  lemma ReportMeans(less: Less, input: Input, candidate: Candidate) returns (regions: seq<Region>, at: seq<nat>)
    requires Real(candidate.bounds) && RealRegions(input)
    ensures multiset(regions) == multiset(Listed(input))
    ensures StrictTotalOrder(less) ==> InIdOrder(less, regions, Listed(input))
    ensures Selects(at, |regions|, TooNear(candidate.bounds, regions, Asked(input)))
    ensures var check := Checked(less, input, candidate);
      && check.proposed == candidate
      && MeasuresAre(input.sheet.drawable, candidate.bounds, regions, check.clearances)
      && ConflictsAre(input.sheet.drawable, candidate.bounds, Asked(input), regions, at, check.conflicts)
  {
    regions := AllRegions(less, input);
    RegionsListed(less, input);
    if StrictTotalOrder(less) {
      RegionsInOrder(less, input);
    }
    at := RegionsReported(regions, candidate.bounds, Asked(input));
    MeasuresJoined(input, candidate.bounds, regions);
    ConflictsJoined(input, candidate.bounds, regions, at);
  }
}
