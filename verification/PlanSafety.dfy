/** The main results about a feasible plan. */
module PlanSafety {
  import opened Basics
  import opened SchematicGeometry
  import opened Placement
  import opened PlannerModel
  import opened PlannerTheorems

  // ----- one block -----

  /** Length of a row from its first part to the end of its last. */
  function Extent(c: Constraints, members: seq<Component>): int {
    if members == [] then 0 else Cursor(c, members, 0, 0) - c.componentSpacing
  }

  lemma OneFewer(n: nat, spacing: int)
    requires n >= 1
    ensures (n - 1) * spacing == n * spacing - spacing
  {
  }

  lemma ExtentExact(c: Constraints, members: seq<Component>)
    ensures Extent(c, members) == SumAlong(c.topToBottom, members) + Max(0, |members| - 1) * c.componentSpacing
  {
    if members == [] {
      assert Max(0, |members| - 1) == 0;
    } else {
      CursorExact(members, 0, 0, c);
      OneFewer(|members|, c.componentSpacing);
      assert Max(0, |members| - 1) == |members| - 1;
    }
  }

  /** Room for the row and the padding around it. */
  predicate Measured(width: int, height: int, ordered: seq<Component>, c: Constraints) {
    && (if c.topToBottom then height else width) == Extent(c, ordered) + 2 * c.blockPadding
    && (if c.topToBottom then width else height) == MaxAcross(c.topToBottom, ordered) + 2 * c.blockPadding
  }

  lemma MeasuredPermute(width: int, height: int, before: seq<Component>, ordered: seq<Component>, c: Constraints)
    requires multiset(before) == multiset(ordered) && Measured(width, height, before, c)
    ensures Measured(width, height, ordered, c)
  {
    ExtentExact(c, before);
    ExtentExact(c, ordered);
    SizesPermute(c.topToBottom, ordered, before);
  }

  lemma DraftSizes(id: string, members: seq<Component>, c: Constraints)
    ensures var d := DraftOf(id, members, c); Measured(d.width, d.height, d.mains + d.supports, c)
  {
    ExtentExact(c, DraftOf(id, members, c).mains + DraftOf(id, members, c).supports);
  }

  /** The member list of a draft has the sizes the draft was measured with. */
  lemma DraftMeasured(less: Less, id: string, members: seq<Component>, c: Constraints)
    ensures var draft := DraftOf(id, members, c);
      multiset(Members(less, draft)) == multiset(members) &&
        Measured(draft.width, draft.height, Members(less, draft), c)
  {
    var draft := DraftOf(id, members, c);
    FilterSplits(members);
    SortPermutes(MemberOrder(less), draft.mains + draft.supports);
    DraftSizes(id, members, c);
    MeasuredPermute(draft.width, draft.height, draft.mains + draft.supports, Members(less, draft), c);
  }

  /** The search grid is made of sheet grid lines. It is unless the grid is under one unit
      and does not divide it. */
  predicate SearchesOnGrid(grid: int) {
    OnSheetGrid(Max(UNIT, grid), grid)
  }

  /** Padding that takes up any shift by snapping, or nothing that needs snapping. */
  predicate Buffered(s: seq<Component>, c: Constraints, grid: int) {
    c.blockPadding >= 0 && (c.blockPadding >= grid / 2 || (SearchesOnGrid(grid) && Gridded(s, c, grid)))
  }

  /** The parts can stand in any order in a snapped row of their block. */
  predicate Fitting(s: seq<Component>, c: Constraints, grid: int) {
    Solid(s, c) && AllClear(s, c, grid) && Buffered(s, c, grid)
  }

  lemma FittingPermute(a: seq<Component>, b: seq<Component>, c: Constraints, grid: int)
    requires Fitting(a, c, grid) && multiset(a) == multiset(b)
    ensures Fitting(b, c, grid)
  {
    MultisetMembers(a, b);
    assert forall k :: 0 <= k < |b| ==> b[k] in a;
  }

  predicate Near(v: int, grid: int, padding: int) {
    v - padding <= SnapToGrid(v, grid) <= v + padding
  }

  lemma SnapsNear(v: int, grid: int, padding: int)
    requires padding >= 0 && (padding >= grid / 2 || OnSheetGrid(v, grid))
    ensures Near(v, grid, padding)
  {
    if grid > 0 {
      SnapNearest(v, grid);
    }
  }

  /** Where the row of a block starts. */
  ghost predicate Anchored(ordered: seq<Component>, bounds: Bounds, c: Constraints, grid: int) {
    c.blockPadding >= 0 &&
    (c.blockPadding >= grid / 2 ||
      (Gridded(ordered, c, grid) && OnSheetGrid(bounds.x, grid) && OnSheetGrid(bounds.y, grid)))
  }

  lemma CursorNear(ordered: seq<Component>, bounds: Bounds, c: Constraints, grid: int, k: nat)
    requires Anchored(ordered, bounds, c, grid) && k <= |ordered|
    ensures var x, y := bounds.x + c.blockPadding, bounds.y + c.blockPadding;
      Near(Cursor(c, ordered[..k], x, y), grid, c.blockPadding) && Near(AcrossStart(c, x, y), grid, c.blockPadding)
  {
    var x, y := bounds.x + c.blockPadding, bounds.y + c.blockPadding;
    if c.blockPadding < grid / 2 {
      OnGridAdd(bounds.x, c.blockPadding, grid);
      OnGridAdd(bounds.y, c.blockPadding, grid);
      CursorAligned(ordered[..k], x, y, c, grid);
    }
    SnapsNear(Cursor(c, ordered[..k], x, y), grid, c.blockPadding);
    SnapsNear(AcrossStart(c, x, y), grid, c.blockPadding);
  }

  lemma {:induction false} AcrossBound(v: bool, s: seq<Component>, k: nat)
    requires k < |s|
    ensures Across(v, s[k]) <= MaxAcross(v, s)
  {
    var n := |s| - 1;
    if k < n {
      AcrossBound(v, s[..n], k);
    }
  }

  /** The part of the row between its start and its end. */
  lemma PartSpan(ordered: seq<Component>, x: int, y: int, c: Constraints, k: nat)
    requires Solid(ordered, c) && k < |ordered|
    ensures AlongStart(c, x, y) <= Cursor(c, ordered[..k], x, y)
    ensures Cursor(c, ordered[..k], x, y) + Along(c.topToBottom, ordered[k]) <= AlongStart(c, x, y) + Extent(c, ordered)
  {
    var n := |ordered|;
    CursorOrdered(ordered, x, y, c, 0, k);
    CursorNext(ordered, x, y, c, k);
    CursorOrdered(ordered, x, y, c, k + 1, n);
    assert ordered[..n] == ordered && ordered[..0] == [];
    CursorExact(ordered, x, y, c);
    CursorExact(ordered, 0, 0, c);
  }

  lemma StandsInside(v: bool, b: Bounds, low: int, along: int, base: int, across: int, outer: Bounds)
    requires StandsAt(v, b, low, along, base, across)
    requires Low(v, outer) <= low && low + along <= High(v, outer) && Low(!v, outer) <= base &&
      base + across <= High(!v, outer)
    ensures Inside(b, outer)
  {
  }

  lemma PartInside(ordered: seq<Component>, bounds: Bounds, c: Constraints, grid: int, order: nat, k: nat)
    requires Solid(ordered, c) && Anchored(ordered, bounds, c, grid) &&
      Measured(bounds.width, bounds.height, ordered, c)
    requires k < |ordered|
    ensures Inside(PlaceFrom(Snapper(grid), ordered, bounds.x + c.blockPadding, bounds.y + c.blockPadding, c,
      order)[k].bounds, bounds)
  {
    var x, y, v := bounds.x + c.blockPadding, bounds.y + c.blockPadding, c.topToBottom;
    PartStands(ordered, x, y, c, grid, order, k);
    CursorNear(ordered, bounds, c, grid, k);
    PartSpan(ordered, x, y, c, k);
    AcrossBound(v, ordered, k);
    StandsInside(v, PlaceFrom(Snapper(grid), ordered, x, y, c, order)[k].bounds,
      SnapToGrid(Cursor(c, ordered[..k], x, y), grid),
      Along(v, ordered[k]), SnapToGrid(AcrossStart(c, x, y), grid), Across(v, ordered[k]), bounds);
  }

  /** Inside the bounds, and pairwise disjoint. */
  ghost predicate Nested(placed: seq<Placed>, bounds: Bounds) {
    (forall k :: 0 <= k < |placed| ==> Inside(placed[k].bounds, bounds)) && PairwiseDisjoint(placed)
  }

  lemma RowNested(ordered: seq<Component>, bounds: Bounds, c: Constraints, grid: int, order: nat)
    requires Fitting(ordered, c, grid) && Measured(bounds.width, bounds.height, ordered, c)
    requires SearchesOnGrid(grid) ==> OnSheetGrid(bounds.x, grid) && OnSheetGrid(bounds.y, grid)
    ensures Nested(PlaceFrom(Snapper(grid), ordered, bounds.x + c.blockPadding, bounds.y + c.blockPadding, c, order),
      bounds)
  {
    var x, y := bounds.x + c.blockPadding, bounds.y + c.blockPadding;
    RowApart(ordered, x, y, c, grid, order);
    forall k: nat | k < |ordered| ensures Inside(PlaceFrom(Snapper(grid), ordered, x, y, c, order)[k].bounds, bounds) {
      PartInside(ordered, bounds, c, grid, order, k);
    }
  }

  lemma BlockNested(less: Less, block: Draft, bounds: Bounds, c: Constraints, grid: int, order: nat)
    requires Fitting(Members(less, block), c, grid)
    requires Measured(bounds.width, bounds.height, Members(less, block), c)
    requires SearchesOnGrid(grid) ==> OnSheetGrid(bounds.x, grid) && OnSheetGrid(bounds.y, grid)
    ensures Nested(PlacedMembers(less, block, bounds, c, grid, order), bounds)
  {
    RowNested(Members(less, block), bounds, c, grid, order);
  }

  /** The members of a block stay inside its reservation and off each other. */
  lemma MembersInside(less: Less, id: string, members: seq<Component>, bounds: Bounds, c: Constraints, grid: int,
                      order: nat)
    requires Fitting(members, c, grid)
    requires SearchesOnGrid(grid) ==> OnSheetGrid(bounds.x, grid) && OnSheetGrid(bounds.y, grid)
    requires bounds.width == DraftOf(id, members, c).width && bounds.height == DraftOf(id, members, c).height
    ensures Nested(PlacedMembers(less, DraftOf(id, members, c), bounds, c, grid, order), bounds)
  {
    var block := DraftOf(id, members, c);
    DraftMeasured(less, id, members, c);
    FittingPermute(members, Members(less, block), c, grid);
    BlockNested(less, block, bounds, c, grid, order);
  }

  // ----- the chosen position -----

  lemma AlignedThrough(a: int, m: int, grid: int)
    requires m > 0 && grid > 0 && Aligned(a, m) && Aligned(m, grid)
    ensures Aligned(a, grid)
  {
    var k := AlignedIsMultiple(a, m);
    var j := AlignedIsMultiple(m, grid);
    assert a == (k * j) * grid;
    MultipleAligned(k * j, grid);
  }

  lemma OnSearchGrid(p: Position, grid: int)
    requires Aligned(p.x, Max(UNIT, grid)) && Aligned(p.y, Max(UNIT, grid))
    ensures SearchesOnGrid(grid) ==> OnSheetGrid(p.x, grid) && OnSheetGrid(p.y, grid)
  {
    if grid > 0 && SearchesOnGrid(grid) {
      AlignedThrough(p.x, Max(UNIT, grid), grid);
      AlignedThrough(p.y, Max(UNIT, grid), grid);
    }
  }

  lemma FirstAlternative(less: Less, request: Input)
    requires !Checked(less, request, request.candidate).accepted && |PlacementResult(less, request).alternatives| > 0
    ensures var selected := PlacementResult(less, request).alternatives[0];
      && selected == At(request, selected.origin) && Clear(request, selected.bounds)
      && Aligned(selected.origin.x, Max(UNIT, request.sheet.grid)) &&
           Aligned(selected.origin.y, Max(UNIT, request.sheet.grid))
  {
    var found := AlternativesExact(less, request);
    assert found[0] in found;
    assert Placement.Feasible(request, found[0]);
  }

  /** A chosen position has the block's size, is clear of everything known, and lies on the grid. */
  lemma ChosenClear(less: Less, sheet: Sheet, block: Draft, input: PlanInput, occupancy: seq<Region>)
    requires Chosen(Request(sheet, block, input, occupancy),
      PlacementResult(less, Request(sheet, block, input, occupancy))).Some?
    ensures var request := Request(sheet, block, input, occupancy);
      var b := Chosen(request, PlacementResult(less, request)).value.bounds;
      && Clear(request, b) && b.width == block.width && b.height == block.height
      && (SearchesOnGrid(sheet.grid) ==> OnSheetGrid(b.x, sheet.grid) && OnSheetGrid(b.y, sheet.grid))
  {
    var request := Request(sheet, block, input, occupancy);
    if Checked(less, request, request.candidate).accepted {
      AcceptedIff(less, request, request.candidate);
      InitialOnGrid(sheet, block);
    } else {
      FirstAlternative(less, request);
      OnSearchGrid(PlacementResult(less, request).alternatives[0].origin, sheet.grid);
    }
  }

  lemma InitialOnGrid(sheet: Sheet, block: Draft)
    ensures var b := InitialCandidate(sheet, block).bounds;
      b.width == block.width && b.height == block.height && OnSheetGrid(b.x, sheet.grid) && OnSheetGrid(b.y, sheet.grid)
  {
    if sheet.grid > 0 {
      SnapNearest(sheet.drawable.x + sheet.grid, sheet.grid);
      SnapNearest(if sheet.yDown then sheet.drawable.y + sheet.grid
        else Bottom(sheet.drawable) - block.height - sheet.grid, sheet.grid);
    }
  }

  // ----- the whole layout -----

  function BlockRegions(blocks: seq<Reservation>): (r: seq<Region>)
    ensures |r| == |blocks| && forall k :: 0 <= k < |r| ==> r[k].bounds == blocks[k].bounds
  {
    if blocks == [] then []
    else
      var last := blocks[|blocks| - 1];
      BlockRegions(blocks[..|blocks| - 1]) + [Region("block:" + last.blockId, CallerReserved, last.bounds)]
  }

  /** Title block, keep-outs, reserved and occupied regions given with the request. */
  function FixedRegions(sheet: Sheet, input: PlanInput): seq<Region> {
    (if sheet.titleBlock.Some? then [Region("sheet-title-block", TitleBlock, sheet.titleBlock.value)] else [])
    + input.hardKeepouts + input.reserved + input.existing
  }

  function Clearing(input: PlanInput): int {
    Max(0, input.constraints.minimumClearance)
  }

  ghost predicate Spaced(a: Bounds, b: Bounds, minimum: int) {
    Sufficient(RectangleClearance(a, b), minimum)
  }

  /** A reservation keeps its distance from the border and from every given region. */
  ghost predicate FreeStanding(b: Bounds, sheet: Sheet, input: PlanInput) {
    && Inside(b, sheet.drawable) && Margin(b, sheet.drawable) >= Clearing(input)
    && forall r :: r in FixedRegions(sheet, input) ==> Spaced(b, r.bounds, Clearing(input))
  }

  ghost predicate BlocksSafe(blocks: seq<Reservation>, sheet: Sheet, input: PlanInput) {
    && (forall k :: 0 <= k < |blocks| ==> FreeStanding(blocks[k].bounds, sheet, input))
    && (forall i, j :: 0 <= i < j < |blocks| ==> Spaced(blocks[j].bounds, blocks[i].bounds, Clearing(input)))
  }

  lemma {:induction false} ClearMeans(sheet: Sheet, block: Draft, input: PlanInput, blocks: seq<Reservation>, b: Bounds)
    requires Clear(Request(sheet, block, input, input.existing + BlockRegions(blocks)), b)
    ensures FreeStanding(b, sheet, input)
    ensures forall k :: 0 <= k < |blocks| ==> Spaced(b, blocks[k].bounds, Clearing(input))
  {
    var request := Request(sheet, block, input, input.existing + BlockRegions(blocks));
    forall r | r in FixedRegions(sheet, input) ensures Spaced(b, r.bounds, Clearing(input)) {
      assert r in UnsortedRegions(request);
    }
    forall k | 0 <= k < |blocks| ensures Spaced(b, blocks[k].bounds, Clearing(input)) {
      assert BlockRegions(blocks)[k] in UnsortedRegions(request);
    }
  }

  lemma {:induction false} LaidOutBlocksSafe(less: Less, sheet: Sheet, drafts: seq<Draft>, input: PlanInput)
    ensures var l := LaidOut(less, sheet, drafts, input);
      l.occupancy == input.existing + BlockRegions(l.blocks) && BlocksSafe(l.blocks, sheet, input)
  {
    if drafts != [] {
      var n := |drafts| - 1;
      LaidOutBlocksSafe(less, sheet, drafts[..n], input);
      var before := LaidOut(less, sheet, drafts[..n], input);
      var request := Request(sheet, drafts[n], input, before.occupancy);
      var chosen := Chosen(request, PlacementResult(less, request));
      if chosen.Some? {
        ChosenClear(less, sheet, drafts[n], input, before.occupancy);
        ClearMeans(sheet, drafts[n], input, before.blocks, chosen.value.bounds);
        BlockAdded(before.blocks, Reservation(drafts[n].id, chosen.value.bounds), sheet, input);
      }
    }
  }

  lemma {:induction false} BlockAdded(blocks: seq<Reservation>, r: Reservation, sheet: Sheet, input: PlanInput)
    requires BlocksSafe(blocks, sheet, input) && FreeStanding(r.bounds, sheet, input)
    requires forall k :: 0 <= k < |blocks| ==> Spaced(r.bounds, blocks[k].bounds, Clearing(input))
    ensures BlocksSafe(blocks + [r], sheet, input)
    ensures input.existing + BlockRegions(blocks + [r])
         == input.existing + BlockRegions(blocks) + [Region("block:" + r.blockId, CallerReserved, r.bounds)]
  {
    assert (blocks + [r])[..|blocks|] == blocks;
  }

  // ----- the placements -----

  /** A draft built from members of its own block. */
  ghost predicate BuiltFrom(block: Draft, members: seq<Component>, c: Constraints) {
    block == DraftOf(block.id, members, c) && forall k :: 0 <= k < |members| ==> members[k].blockId == block.id
  }

  /** A draft built from fitting members of its own block. */
  ghost predicate Drafted(block: Draft, c: Constraints, grid: int) {
    exists members: seq<Component> :: BuiltFrom(block, members, c) && Fitting(members, c, grid)
  }

  /** The part lies inside the reservation of its own block. */
  ghost predicate Housed(p: Placed, blocks: seq<Reservation>) {
    exists k: nat :: k < |blocks| && HousedBy(p, blocks[k])
  }

  predicate HousedBy(p: Placed, r: Reservation) {
    r.blockId == p.component.blockId && Inside(p.bounds, r.bounds)
  }

  ghost predicate PartsSafe(placements: seq<Placed>, blocks: seq<Reservation>) {
    && (forall k :: 0 <= k < |placements| ==> Housed(placements[k], blocks))
    && (forall i, j :: 0 <= i < j < |placements| ==> Disjoint(placements[i].bounds, placements[j].bounds))
  }

  lemma SpacedDisjoint(a: Bounds, b: Bounds, minimum: int)
    requires Spaced(a, b, minimum) && minimum >= 0
    ensures Disjoint(a, b) && Disjoint(b, a)
  {
  }

  lemma InsideDisjoint(a: Bounds, outerA: Bounds, b: Bounds, outerB: Bounds)
    requires Inside(a, outerA) && Inside(b, outerB) && Disjoint(outerA, outerB)
    ensures Disjoint(a, b)
  {
  }

  lemma HousedStays(p: Placed, blocks: seq<Reservation>, r: Reservation)
    requires Housed(p, blocks)
    ensures Housed(p, blocks + [r])
  {
    var k: nat :| k < |blocks| && HousedBy(p, blocks[k]);
    assert (blocks + [r])[k] == blocks[k];
  }

  lemma NewlyHoused(p: Placed, blocks: seq<Reservation>, r: Reservation)
    requires HousedBy(p, r)
    ensures Housed(p, blocks + [r])
  {
    assert (blocks + [r])[|blocks|] == r;
  }

  lemma NewPartsDisjoint(p: Placed, q: Placed, blocks: seq<Reservation>, r: Reservation, minimum: int)
    requires Housed(p, blocks) && Inside(q.bounds, r.bounds) && minimum >= 0
    requires forall k :: 0 <= k < |blocks| ==> Spaced(r.bounds, blocks[k].bounds, minimum)
    ensures Disjoint(p.bounds, q.bounds)
  {
    var k: nat :| k < |blocks| && HousedBy(p, blocks[k]);
    SpacedDisjoint(r.bounds, blocks[k].bounds, minimum);
    InsideDisjoint(p.bounds, blocks[k].bounds, q.bounds, r.bounds);
  }

  lemma PartsAdded(placements: seq<Placed>, blocks: seq<Reservation>, placed: seq<Placed>, r: Reservation, minimum: int)
    requires PartsSafe(placements, blocks) && Nested(placed, r.bounds) && minimum >= 0
    requires forall k :: 0 <= k < |placed| ==> placed[k].component.blockId == r.blockId
    requires forall k :: 0 <= k < |blocks| ==> Spaced(r.bounds, blocks[k].bounds, minimum)
    ensures PartsSafe(placements + placed, blocks + [r])
  {
    var all := placements + placed;
    forall k | 0 <= k < |all| ensures Housed(all[k], blocks + [r]) {
      if k < |placements| {
        HousedStays(placements[k], blocks, r);
      } else {
        NewlyHoused(placed[k - |placements|], blocks, r);
      }
    }
    forall i, j | 0 <= i < j < |all| ensures Disjoint(all[i].bounds, all[j].bounds) {
      if i < |placements| <= j {
        NewPartsDisjoint(placements[i], placed[j - |placements|], blocks, r, minimum);
      }
    }
  }

  lemma BlockMembersPlaced(less: Less, block: Draft, members: seq<Component>, bounds: Bounds, c: Constraints,
                           grid: int, order: nat)
    requires BuiltFrom(block, members, c)
    ensures forall k :: 0 <= k < |PlacedMembers(less, block, bounds, c, grid, order)| ==>
      PlacedMembers(less, block, bounds, c, grid, order)[k].component.blockId == block.id
  {
    var placed := PlacedMembers(less, block, bounds, c, grid, order);
    PlacedParts(less, block, bounds, c, grid, order);
    FilterSplits(members);
    MultisetMembers(Parts(placed), members);
    forall k | 0 <= k < |placed| ensures placed[k].component.blockId == block.id {
      assert Parts(placed)[k] in members;
    }
  }

  lemma {:induction false} LaidOutPartsSafe(less: Less, sheet: Sheet, drafts: seq<Draft>, input: PlanInput)
    requires forall k :: 0 <= k < |drafts| ==> Drafted(drafts[k], input.constraints, sheet.grid)
    ensures PartsSafe(LaidOut(less, sheet, drafts, input).placements, LaidOut(less, sheet, drafts, input).blocks)
  {
    if drafts != [] {
      var n := |drafts| - 1;
      var before := LaidOut(less, sheet, drafts[..n], input);
      LaidOutPartsSafe(less, sheet, drafts[..n], input);
      LaidOutBlocksSafe(less, sheet, drafts[..n], input);
      AddBlockPartsSafe(less, sheet, drafts[n], input, before);
    }
  }

  lemma AddBlockPartsSafe(less: Less, sheet: Sheet, block: Draft, input: PlanInput, l: Layout)
    requires Drafted(block, input.constraints, sheet.grid)
    requires PartsSafe(l.placements, l.blocks) && l.occupancy == input.existing + BlockRegions(l.blocks)
    ensures PartsSafe(AddBlock(less, sheet, block, input, l).placements, AddBlock(less, sheet, block, input, l).blocks)
  {
    var request := Request(sheet, block, input, l.occupancy);
    var chosen := Chosen(request, PlacementResult(less, request));
    if chosen.Some? {
      var bounds := chosen.value.bounds;
      ChosenClear(less, sheet, block, input, l.occupancy);
      ClearMeans(sheet, block, input, l.blocks, bounds);
      ReserveSafe(less, sheet, block, input, l, bounds);
    }
  }

  lemma ReserveSafe(less: Less, sheet: Sheet, block: Draft, input: PlanInput, l: Layout, bounds: Bounds)
    requires Drafted(block, input.constraints, sheet.grid) && PartsSafe(l.placements, l.blocks)
    requires bounds.width == block.width && bounds.height == block.height
    requires SearchesOnGrid(sheet.grid) ==> OnSheetGrid(bounds.x, sheet.grid) && OnSheetGrid(bounds.y, sheet.grid)
    requires forall k :: 0 <= k < |l.blocks| ==> Spaced(bounds, l.blocks[k].bounds, Clearing(input))
    ensures PartsSafe(Reserve(less, sheet, block, input, l, bounds).placements,
      Reserve(less, sheet, block, input, l, bounds).blocks)
  {
    var members :| BuiltFrom(block, members, input.constraints) && Fitting(members, input.constraints, sheet.grid);
    MembersInside(less, block.id, members, bounds, input.constraints, sheet.grid, |l.placements|);
    BlockMembersPlaced(less, block, members, bounds, input.constraints, sheet.grid, |l.placements|);
    var placed := PlacedMembers(less, block, bounds, input.constraints, sheet.grid, |l.placements|);
    PartsAdded(l.placements, l.blocks, placed, Reservation(block.id, bounds), Clearing(input));
  }

  lemma {:induction false} DraftsForDrafted(ids: seq<string>, sorted: seq<Component>, c: Constraints, grid: int)
    requires Fitting(sorted, c, grid)
    ensures forall k :: 0 <= k < |DraftsFor(ids, sorted, c)| ==> Drafted(DraftsFor(ids, sorted, c)[k], c, grid)
  {
    if ids != [] {
      var n := |ids| - 1;
      var members := Filter(WithKey(BlockOf(), ids[n]), sorted);
      DraftsForDrafted(ids[..n], sorted, c, grid);
      FilterMembers(WithKey(BlockOf(), ids[n]), sorted);
      assert forall k :: 0 <= k < |members| ==> members[k] in members;
      assert BuiltFrom(DraftOf(ids[n], members, c), members, c) && Fitting(members, c, grid);
    }
  }

  lemma DraftsDrafted(less: Less, components: seq<Component>, c: Constraints, grid: int)
    requires Fitting(components, c, grid)
    ensures forall k :: 0 <= k < |Drafts(less, components, c)| ==> Drafted(Drafts(less, components, c)[k], c, grid)
  {
    var sorted := SortBy(ByComponentId(less), components);
    SortPermutes(ByComponentId(less), components);
    FittingPermute(components, sorted, c, grid);
    DraftsForDrafted(SortBy(ByName(less), BlockIds(sorted)), sorted, c, grid);
  }

  // ----- the plan -----

  lemma RankedParts(less: Less, l: Layout)
    ensures Parts(WithRanks(less, l).placements) == Parts(l.placements)
  {
    RankedKeeps(l.placements, SortBy(GlobalOrder(less, l.placements), UpTo(|l.placements|)));
  }

  lemma RankedSafe(less: Less, l: Layout)
    requires PartsSafe(l.placements, l.blocks)
    ensures PartsSafe(WithRanks(less, l).placements, l.blocks)
  {
    var ranked := WithRanks(less, l).placements;
    RankedKeeps(l.placements, SortBy(GlobalOrder(less, l.placements), UpTo(|l.placements|)));
    forall k | 0 <= k < |ranked| ensures Housed(ranked[k], l.blocks) {
      var i: nat :| i < |l.blocks| && HousedBy(l.placements[k], l.blocks[i]);
      assert HousedBy(ranked[k], l.blocks[i]);
    }
  }

  /** A feasible plan places every component exactly once, and its order lists every one once. */
  lemma FeasiblePlanComplete(less: Less, page: Page, fallback: Option<Page>, allowFallback: bool, input: PlanInput)
    requires Planned(less, page, fallback, allowFallback, input).feasible
    ensures var plan := Planned(less, page, fallback, allowFallback, input);
      && multiset(Parts(plan.layout.placements)) == multiset(input.components)
      && multiset(plan.order) == multiset(input.components)
  {
    var plan := Planned(less, page, fallback, allowFallback, input);
    var drafts := Drafts(less, input.components, input.constraints);
    var l := LaidOut(less, plan.page.sheet, drafts, input);
    LaidOutComplete(less, plan.page.sheet, drafts, input);
    DraftsPartition(less, input.components, input.constraints);
    RankedParts(less, l);
    SortPermutes(ByRank(), plan.layout.placements);
    PartsPermute(plan.layout.placements, SortBy(ByRank(), plan.layout.placements));
  }

  /** In the placement order of any plan, every main part comes before every support. */
  lemma PlanMainsFirst(less: Less, page: Page, fallback: Option<Page>, allowFallback: bool, input: PlanInput)
    requires StrictTotalOrder(less)
    ensures MainsFirst(Planned(less, page, fallback, allowFallback, input).order)
  {
    var plan := Planned(less, page, fallback, allowFallback, input);
    var l := LaidOut(less, plan.page.sheet, Drafts(less, input.components, input.constraints), input);
    GlobalOrderExact(less, l.placements);
    RanksMainsFirst(less, l.placements, SortBy(GlobalOrder(less, l.placements), UpTo(|l.placements|)));
    SortedByRank(plan.layout.placements);
  }

  /** The blocks of any plan keep the minimum clearance from the border, from every given
      region and from each other. */
  lemma PlanBlocksSafe(less: Less, page: Page, fallback: Option<Page>, allowFallback: bool, input: PlanInput)
    ensures var plan := Planned(less, page, fallback, allowFallback, input);
      BlocksSafe(plan.layout.blocks, plan.page.sheet, input)
  {
    var plan := Planned(less, page, fallback, allowFallback, input);
    LaidOutBlocksSafe(less, plan.page.sheet, Drafts(less, input.components, input.constraints), input);
  }

  /** When every part keeps clear of a successor in its row, and the padding takes up the
      snapping or nothing needs snapping, every placed part lies inside the reservation of
      its own block, hence in the drawable area, and no two parts overlap. */
  lemma PlanPartsSafe(less: Less, page: Page, fallback: Option<Page>, allowFallback: bool, input: PlanInput)
    requires var grid := Planned(less, page, fallback, allowFallback, input).page.sheet.grid;
      Fitting(input.components, input.constraints, grid)
    ensures var plan := Planned(less, page, fallback, allowFallback, input);
      && PartsSafe(plan.layout.placements, plan.layout.blocks)
      && forall k :: 0 <= k < |plan.layout.placements| ==>
           Inside(plan.layout.placements[k].bounds, plan.page.sheet.drawable)
  {
    var plan := Planned(less, page, fallback, allowFallback, input);
    var drafts := Drafts(less, input.components, input.constraints);
    var l := LaidOut(less, plan.page.sheet, drafts, input);
    DraftsDrafted(less, input.components, input.constraints, plan.page.sheet.grid);
    LaidOutPartsSafe(less, plan.page.sheet, drafts, input);
    LaidOutBlocksSafe(less, plan.page.sheet, drafts, input);
    RankedSafe(less, l);
    HousedInDrawable(plan.layout.placements, l.blocks, plan.page.sheet, input);
  }

  lemma HousedInDrawable(placements: seq<Placed>, blocks: seq<Reservation>, sheet: Sheet, input: PlanInput)
    requires PartsSafe(placements, blocks) && BlocksSafe(blocks, sheet, input)
    ensures forall k :: 0 <= k < |placements| ==> Inside(placements[k].bounds, sheet.drawable)
  {
    forall k | 0 <= k < |placements| ensures Inside(placements[k].bounds, sheet.drawable) {
      var i: nat :| i < |blocks| && HousedBy(placements[k], blocks[i]);
      assert FreeStanding(blocks[i].bounds, sheet, input);
    }
  }

  /** A block is refused exactly when neither its first position nor any grid position is
      clear of the sheet border, the given regions and the blocks reserved before it. */
  lemma BlockRefusedIff(less: Less, sheet: Sheet, block: Draft, input: PlanInput, l: Layout)
    ensures var request := Request(sheet, block, input, l.occupancy);
      AddBlock(less, sheet, block, input, l).blocks == l.blocks <==>
      !Clear(request, request.candidate.bounds) && forall p :: !Placement.Feasible(request, p)
  {
    var request := Request(sheet, block, input, l.occupancy);
    NoFeasiblePositionIff(less, request);
    assert Chosen(request, PlacementResult(less, request)).None? <==> PlacementResult(less, request).failure.Some?;
    assert forall r: Reservation :: |l.blocks + [r]| != |l.blocks|;
  }

  /** Whatever the sizes: a spacing of one grid step and padding of half a step are enough. */
  lemma SpacedPlanPartsSafe(less: Less, page: Page, fallback: Option<Page>, allowFallback: bool, input: PlanInput)
    requires var grid := Planned(less, page, fallback, allowFallback, input).page.sheet.grid;
      && Solid(input.components, input.constraints) && input.constraints.blockPadding >= 0
      && input.constraints.componentSpacing >= grid && input.constraints.blockPadding >= grid / 2
    ensures var plan := Planned(less, page, fallback, allowFallback, input);
      && PartsSafe(plan.layout.placements, plan.layout.blocks)
      && forall k :: 0 <= k < |plan.layout.placements| ==>
           Inside(plan.layout.placements[k].bounds, plan.page.sheet.drawable)
  {
    var grid, c := Planned(less, page, fallback, allowFallback, input).page.sheet.grid, input.constraints;
    forall k | 0 <= k < |input.components|
      ensures KeepsClear(Along(c.topToBottom, input.components[k]), c.componentSpacing, grid)
    {
      if grid > 0 {
        KeepsClearIff(Along(c.topToBottom, input.components[k]), c.componentSpacing, grid);
      }
    }
    PlanPartsSafe(less, page, fallback, allowFallback, input);
  }

  /** The same for parts, padding and spacing on the grid, whatever the spacing. */
  lemma GriddedPlanPartsSafe(less: Less, page: Page, fallback: Option<Page>, allowFallback: bool, input: PlanInput)
    requires var grid := Planned(less, page, fallback, allowFallback, input).page.sheet.grid;
      && SearchesOnGrid(grid) && Gridded(input.components, input.constraints, grid)
      && Solid(input.components, input.constraints) && input.constraints.blockPadding >= 0
    ensures var plan := Planned(less, page, fallback, allowFallback, input);
      && PartsSafe(plan.layout.placements, plan.layout.blocks)
      && forall k :: 0 <= k < |plan.layout.placements| ==>
           Inside(plan.layout.placements[k].bounds, plan.page.sheet.drawable)
  {
    GriddedClear(input.components, input.constraints,
      Planned(less, page, fallback, allowFallback, input).page.sheet.grid);
    PlanPartsSafe(less, page, fallback, allowFallback, input);
  }

  /** An input that does not keep clear: two parts 14 units wide, no spacing, on a grid
      of 10 units. The second is pulled back to 10 units. */
  lemma UnalignedPartsOverlap(a: Component, b: Component)
    requires Width(a) == Width(b) == 14 * UNIT && Height(a) == Height(b) == 10 * UNIT
    ensures var placed := PlaceFrom(Snapper(10 * UNIT), [a, b], 0, 0, Constraints(0, 0, 0, false), 0);
      !KeepsClear(Width(a), 0, 10 * UNIT) && placed[1].bounds.x == 10 * UNIT &&
        !Disjoint(placed[0].bounds, placed[1].bounds)
  {
    var c, snap := Constraints(0, 0, 0, false), Snapper(10 * UNIT);
    assert [a, b][..1] == [a] && [a][..0] == [];
    assert CursorX(c, [a], 0) == 14 * UNIT && CursorY(c, [a], 0) == 0;
    assert 38 * UNIT / (20 * UNIT) == 1 && 10 * UNIT / (20 * UNIT) == 0;
    assert SnapToGrid(14 * UNIT, 10 * UNIT) == 10 * UNIT && SnapToGrid(0, 10 * UNIT) == 0;
    assert PlaceFrom(snap, [a], 0, 0, c, 0) == [PlaceOne(snap, a, 0, 0, 0)];
  }
}
