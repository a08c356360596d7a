/** When the parts of a plan stand inside their blocks and off each other, exactly: a block
    is sound wherever it is reserved if its row is sound at the corner of the sheet grid. */
module PlanExact {
  import opened Basics
  import opened SchematicGeometry
  import opened Placement
  import opened PlannerModel
  import opened PlannerTheorems
  import opened PlanSafety

  // ----- a row is the same at every grid point -----

  lemma SnapShift(base: int, v: int, grid: int)
    requires OnSheetGrid(base, grid)
    ensures SnapToGrid(base + v, grid) == base + SnapToGrid(v, grid)
  {
    if grid > 0 {
      SnapNearest(v, grid);
      AlignedAdd(base, SnapToGrid(v, grid), grid);
      SnapUnique(base + v, base + SnapToGrid(v, grid), grid);
    }
  }

  lemma {:induction false} CursorsShift(c: Constraints, members: seq<Component>, x: int, y: int, dx: int, dy: int)
    ensures CursorX(c, members, dx + x) == dx + CursorX(c, members, x)
    ensures CursorY(c, members, dy + y) == dy + CursorY(c, members, y)
  {
    if members != [] {
      CursorsShift(c, members[..|members| - 1], x, y, dx, dy);
    }
  }

  lemma PartShifts(members: seq<Component>, x: int, y: int, dx: int, dy: int, c: Constraints, grid: int,
                   order: nat, start: nat, k: nat)
    requires OnSheetGrid(dx, grid) && OnSheetGrid(dy, grid) && k < |members|
    ensures PlaceFrom(Snapper(grid), members, dx + x, dy + y, c, order)[k].bounds
         == Translate(PlaceFrom(Snapper(grid), members, x, y, c, start)[k].bounds, dx, dy)
  {
    PartAt(Snapper(grid), members, dx + x, dy + y, c, order, k);
    PartAt(Snapper(grid), members, x, y, c, start, k);
    CursorsShift(c, members[..k], x, y, dx, dy);
    SnapShift(dx, CursorX(c, members[..k], x), grid);
    SnapShift(dy, CursorY(c, members[..k], y), grid);
  }

  predicate Shifted(a: seq<Placed>, b: seq<Placed>, dx: int, dy: int) {
    |a| == |b| && forall k :: 0 <= k < |a| ==> b[k].bounds == Translate(a[k].bounds, dx, dy)
  }

  lemma NestedShifts(a: seq<Placed>, b: seq<Placed>, outer: Bounds, dx: int, dy: int)
    requires Shifted(a, b, dx, dy)
    ensures Nested(a, outer) <==> Nested(b, Translate(outer, dx, dy))
  {
    assert forall k :: 0 <= k < |a| ==>
      (Inside(a[k].bounds, outer) <==> Inside(b[k].bounds, Translate(outer, dx, dy)));
    assert forall i, j :: 0 <= i < j < |a| ==>
      (Disjoint(a[i].bounds, a[j].bounds) <==> Disjoint(b[i].bounds, b[j].bounds));
  }

  /** The block's row, laid out in a reservation at the corner of the grid, stays inside it
      and keeps its parts apart. */
  ghost predicate Sound(less: Less, block: Draft, c: Constraints, grid: int) {
    var home := Bounds(0, 0, block.width, block.height);
    Nested(PlacedMembers(less, block, home, c, grid, 0), home)
  }

  lemma SoundAnywhere(less: Less, block: Draft, bounds: Bounds, c: Constraints, grid: int, order: nat)
    requires OnSheetGrid(bounds.x, grid) && OnSheetGrid(bounds.y, grid)
    requires bounds.width == block.width && bounds.height == block.height
    ensures Nested(PlacedMembers(less, block, bounds, c, grid, order), bounds) <==> Sound(less, block, c, grid)
  {
    var home, members := Bounds(0, 0, block.width, block.height), Members(less, block);
    var a, b := PlacedMembers(less, block, home, c, grid, 0), PlacedMembers(less, block, bounds, c, grid, order);
    forall k: nat | k < |members| ensures b[k].bounds == Translate(a[k].bounds, bounds.x, bounds.y) {
      PartShifts(members, c.blockPadding, c.blockPadding, bounds.x, bounds.y, c, grid, order, 0, k);
    }
    NestedShifts(a, b, home, bounds.x, bounds.y);
  }

  // ----- the whole layout -----

  ghost predicate Reserved(blocks: seq<Reservation>, id: string) {
    exists k :: 0 <= k < |blocks| && blocks[k].blockId == id
  }

  ghost predicate Listed(drafts: seq<Draft>, id: string) {
    exists k :: 0 <= k < |drafts| && drafts[k].id == id
  }

  ghost predicate IsBuilt(block: Draft, c: Constraints) {
    exists members: seq<Component> :: BuiltFrom(block, members, c)
  }

  ghost predicate Built(drafts: seq<Draft>, c: Constraints) {
    forall k :: 0 <= k < |drafts| ==> IsBuilt(drafts[k], c)
  }

  /** Reservations and parts carry the ids of the drafts seen so far. */
  ghost predicate OfDrafts(l: Layout, drafts: seq<Draft>) {
    && (forall k :: 0 <= k < |l.blocks| ==> Listed(drafts, l.blocks[k].blockId))
    && (forall k :: 0 <= k < |l.placements| ==> Listed(drafts, l.placements[k].component.blockId))
  }

  lemma ListedLater(drafts: seq<Draft>, next: Draft, id: string)
    ensures Listed(drafts + [next], id) <==> Listed(drafts, id) || next.id == id
  {
    if k :| 0 <= k < |drafts| && drafts[k].id == id {
      assert (drafts + [next])[k].id == id;
    }
    assert (drafts + [next])[|drafts|] == next;
  }

  lemma OfDraftsKept(l: Layout, drafts: seq<Draft>, next: Draft)
    requires OfDrafts(l, drafts)
    ensures OfDrafts(l, drafts + [next])
  {
    forall id ensures Listed(drafts, id) ==> Listed(drafts + [next], id) {
      ListedLater(drafts, next, id);
    }
  }

  /** A reserved block joins the layout. */
  ghost predicate Joins(l: Layout, next: Layout, r: Reservation, placed: seq<Placed>) {
    && next.blocks == l.blocks + [r] && next.placements == l.placements + placed
    && forall k :: 0 <= k < |placed| ==> placed[k].component.blockId == r.blockId
  }

  lemma OfDraftsJoined(l: Layout, next: Layout, r: Reservation, placed: seq<Placed>, drafts: seq<Draft>, block: Draft)
    requires OfDrafts(l, drafts) && Joins(l, next, r, placed) && r.blockId == block.id
    ensures OfDrafts(next, drafts + [block])
  {
    OfDraftsKept(l, drafts, block);
    ListedLater(drafts, block, block.id);
  }

  /** A part whose block is not the new one has its house among the old reservations. */
  lemma HouseStays(p: Placed, blocks: seq<Reservation>, r: Reservation)
    requires Housed(p, blocks + [r]) && p.component.blockId != r.blockId
    ensures Housed(p, blocks)
  {
    var k: nat :| k < |blocks| + 1 && HousedBy(p, (blocks + [r])[k]);
    assert HousedBy(p, blocks[k]);
  }

  lemma NewHouse(p: Placed, blocks: seq<Reservation>, r: Reservation)
    requires Housed(p, blocks + [r]) && p.component.blockId == r.blockId && !Reserved(blocks, r.blockId)
    ensures Inside(p.bounds, r.bounds)
  {
    var k: nat :| k < |blocks| + 1 && HousedBy(p, (blocks + [r])[k]);
    assert k == |blocks|;
  }

  /** The new layout is safe exactly when the old one is and the new row is sound. */
  lemma JoinSafeIff(l: Layout, next: Layout, r: Reservation, placed: seq<Placed>, drafts: seq<Draft>, minimum: int)
    requires OfDrafts(l, drafts) && !Listed(drafts, r.blockId) && Joins(l, next, r, placed)
    requires minimum >= 0 && forall k :: 0 <= k < |l.blocks| ==> Spaced(r.bounds, l.blocks[k].bounds, minimum)
    ensures PartsSafe(next.placements, next.blocks) <==> PartsSafe(l.placements, l.blocks) && Nested(placed, r.bounds)
  {
    if PartsSafe(l.placements, l.blocks) && Nested(placed, r.bounds) {
      PartsAdded(l.placements, l.blocks, placed, r, minimum);
    }
    if PartsSafe(next.placements, next.blocks) {
      PartsParted(l, next, r, placed, drafts);
    }
  }

  lemma PartsParted(l: Layout, next: Layout, r: Reservation, placed: seq<Placed>, drafts: seq<Draft>)
    requires OfDrafts(l, drafts) && !Listed(drafts, r.blockId) && Joins(l, next, r, placed)
    requires PartsSafe(next.placements, next.blocks)
    ensures PartsSafe(l.placements, l.blocks) && Nested(placed, r.bounds)
  {
    var m := |l.placements|;
    forall k | 0 <= k < m ensures Housed(l.placements[k], l.blocks) {
      assert next.placements[k] == l.placements[k];
      HouseStays(l.placements[k], l.blocks, r);
    }
    forall k | 0 <= k < |placed| ensures Inside(placed[k].bounds, r.bounds) {
      assert next.placements[m + k] == placed[k];
      NewHouse(placed[k], l.blocks, r);
    }
    forall i, j | 0 <= i < j < m ensures Disjoint(l.placements[i].bounds, l.placements[j].bounds) {
      assert next.placements[i] == l.placements[i] && next.placements[j] == l.placements[j];
    }
    forall i, j | 0 <= i < j < |placed| ensures Disjoint(placed[i].bounds, placed[j].bounds) {
      assert next.placements[m + i] == placed[i] && next.placements[m + j] == placed[j];
    }
  }

  /** Every draft that was reserved has the property. */
  ghost predicate OnReserved(ok: Draft -> bool, drafts: seq<Draft>, blocks: seq<Reservation>) {
    forall k :: 0 <= k < |drafts| && Reserved(blocks, drafts[k].id) ==> ok(drafts[k])
  }

  lemma ReservedMore(blocks: seq<Reservation>, r: Reservation, id: string)
    ensures Reserved(blocks + [r], id) <==> Reserved(blocks, id) || r.blockId == id
  {
    if k :| 0 <= k < |blocks| && blocks[k].blockId == id {
      assert (blocks + [r])[k].blockId == id;
    }
    assert (blocks + [r])[|blocks|] == r;
  }

  lemma ReservedStep(ok: Draft -> bool, drafts: seq<Draft>, next: Draft, blocks: seq<Reservation>, r: Reservation)
    requires !Listed(drafts, next.id) && r.blockId == next.id
    ensures OnReserved(ok, drafts + [next], blocks + [r]) <==> OnReserved(ok, drafts, blocks) && ok(next)
  {
    forall d: Draft ensures Reserved(blocks + [r], d.id) <==> Reserved(blocks, d.id) || next.id == d.id {
      ReservedMore(blocks, r, d.id);
    }
    var all := drafts + [next];
    assert all[|drafts|] == next;
    assert forall k :: 0 <= k < |drafts| ==> all[k] == drafts[k] && drafts[k].id != next.id;
  }

  lemma NotReservedStep(ok: Draft -> bool, drafts: seq<Draft>, next: Draft, blocks: seq<Reservation>)
    requires !Reserved(blocks, next.id)
    ensures OnReserved(ok, drafts + [next], blocks) <==> OnReserved(ok, drafts, blocks)
  {
    var all := drafts + [next];
    assert all[|drafts|] == next;
    assert forall k :: 0 <= k < |drafts| ==> all[k] == drafts[k];
  }

  ghost function IsSound(less: Less, c: Constraints, grid: int): Draft -> bool {
    d => Sound(less, d, c, grid)
  }

  ghost predicate Tracked(less: Less, sheet: Sheet, drafts: seq<Draft>, input: PlanInput, l: Layout) {
    && OfDrafts(l, drafts) && l.occupancy == input.existing + BlockRegions(l.blocks)
    && (PartsSafe(l.placements, l.blocks) <==>
         OnReserved(IsSound(less, input.constraints, sheet.grid), drafts, l.blocks))
  }

  lemma NotPlacedStep(less: Less, sheet: Sheet, drafts: seq<Draft>, next: Draft, input: PlanInput, l: Layout)
    requires Tracked(less, sheet, drafts, input, l) && !Listed(drafts, next.id)
    ensures Tracked(less, sheet, drafts + [next], input, l)
  {
    OfDraftsKept(l, drafts, next);
    NotReservedStep(IsSound(less, input.constraints, sheet.grid), drafts, next, l.blocks);
  }

  lemma ReserveJoins(less: Less, sheet: Sheet, block: Draft, input: PlanInput, l: Layout, bounds: Bounds)
    requires IsBuilt(block, input.constraints)
    ensures Joins(l, Reserve(less, sheet, block, input, l, bounds), Reservation(block.id, bounds),
      PlacedMembers(less, block, bounds, input.constraints, sheet.grid, |l.placements|))
  {
    var members :| BuiltFrom(block, members, input.constraints);
    BlockMembersPlaced(less, block, members, bounds, input.constraints, sheet.grid, |l.placements|);
  }

  lemma ReserveSafeIff(less: Less, sheet: Sheet, drafts: seq<Draft>, block: Draft, input: PlanInput, l: Layout,
                       bounds: Bounds)
    requires OfDrafts(l, drafts) && !Listed(drafts, block.id) && IsBuilt(block, input.constraints)
    requires bounds.width == block.width && bounds.height == block.height
    requires OnSheetGrid(bounds.x, sheet.grid) && OnSheetGrid(bounds.y, sheet.grid)
    requires forall k :: 0 <= k < |l.blocks| ==> Spaced(bounds, l.blocks[k].bounds, Clearing(input))
    ensures var next := Reserve(less, sheet, block, input, l, bounds);
      && OfDrafts(next, drafts + [block])
      && (PartsSafe(next.placements, next.blocks) <==>
            PartsSafe(l.placements, l.blocks) && Sound(less, block, input.constraints, sheet.grid))
  {
    var c, next, r := input.constraints, Reserve(less, sheet, block, input, l, bounds), Reservation(block.id, bounds);
    var placed := PlacedMembers(less, block, bounds, c, sheet.grid, |l.placements|);
    ReserveJoins(less, sheet, block, input, l, bounds);
    OfDraftsJoined(l, next, r, placed, drafts, block);
    JoinSafeIff(l, next, r, placed, drafts, Clearing(input));
    SoundAnywhere(less, block, bounds, c, sheet.grid, |l.placements|);
  }

  lemma ReserveOccupies(less: Less, sheet: Sheet, block: Draft, input: PlanInput, l: Layout, bounds: Bounds)
    requires l.occupancy == input.existing + BlockRegions(l.blocks)
    ensures var next := Reserve(less, sheet, block, input, l, bounds);
      next.occupancy == input.existing + BlockRegions(next.blocks)
  {
    var r := Reservation(block.id, bounds);
    assert (l.blocks + [r])[..|l.blocks|] == l.blocks;
  }

  lemma PlacedStep(less: Less, sheet: Sheet, drafts: seq<Draft>, block: Draft, input: PlanInput, l: Layout,
                   bounds: Bounds)
    requires Tracked(less, sheet, drafts, input, l) && !Listed(drafts, block.id) && IsBuilt(block, input.constraints)
    requires bounds.width == block.width && bounds.height == block.height
    requires OnSheetGrid(bounds.x, sheet.grid) && OnSheetGrid(bounds.y, sheet.grid)
    requires forall k :: 0 <= k < |l.blocks| ==> Spaced(bounds, l.blocks[k].bounds, Clearing(input))
    ensures Tracked(less, sheet, drafts + [block], input, Reserve(less, sheet, block, input, l, bounds))
  {
    ReserveSafeIff(less, sheet, drafts, block, input, l, bounds);
    ReserveOccupies(less, sheet, block, input, l, bounds);
    ReservedStep(IsSound(less, input.constraints, sheet.grid), drafts, block, l.blocks, Reservation(block.id, bounds));
  }

  lemma DraftStep(less: Less, sheet: Sheet, drafts: seq<Draft>, block: Draft, input: PlanInput, l: Layout)
    requires Tracked(less, sheet, drafts, input, l) && !Listed(drafts, block.id) && IsBuilt(block, input.constraints)
    requires SearchesOnGrid(sheet.grid)
    ensures Tracked(less, sheet, drafts + [block], input, AddBlock(less, sheet, block, input, l))
  {
    var request := Request(sheet, block, input, l.occupancy);
    var chosen := Chosen(request, PlacementResult(less, request));
    if chosen.Some? {
      ChosenClear(less, sheet, block, input, l.occupancy);
      ClearMeans(sheet, block, input, l.blocks, chosen.value.bounds);
      PlacedStep(less, sheet, drafts, block, input, l, chosen.value.bounds);
    } else {
      NotPlacedStep(less, sheet, drafts, block, input, l);
    }
  }

  ghost predicate DistinctDrafts(drafts: seq<Draft>) {
    forall i, j :: 0 <= i < j < |drafts| ==> drafts[i].id != drafts[j].id
  }

  lemma LastDraft(drafts: seq<Draft>, c: Constraints)
    requires drafts != [] && DistinctDrafts(drafts) && Built(drafts, c)
    ensures var n := |drafts| - 1;
      && drafts == drafts[..n] + [drafts[n]] && DistinctDrafts(drafts[..n]) && Built(drafts[..n], c)
      && IsBuilt(drafts[n], c) && !Listed(drafts[..n], drafts[n].id)
  {
  }

  lemma {:induction false} LaidOutTracked(less: Less, sheet: Sheet, drafts: seq<Draft>, input: PlanInput)
    requires DistinctDrafts(drafts) && Built(drafts, input.constraints) && SearchesOnGrid(sheet.grid)
    ensures Tracked(less, sheet, drafts, input, LaidOut(less, sheet, drafts, input))
  {
    if drafts == [] {
      NothingTracked(less, sheet, input);
    } else {
      var n := |drafts| - 1;
      LastDraft(drafts, input.constraints);
      LaidOutTracked(less, sheet, drafts[..n], input);
      DraftStep(less, sheet, drafts[..n], drafts[n], input, LaidOut(less, sheet, drafts[..n], input));
    }
  }

  lemma NothingTracked(less: Less, sheet: Sheet, input: PlanInput)
    ensures Tracked(less, sheet, [], input, LaidOut(less, sheet, [], input))
  {
  }

  // ----- the plan -----

  lemma GroupBuilt(id: string, sorted: seq<Component>, c: Constraints)
    ensures IsBuilt(DraftOf(id, Filter(WithKey(BlockOf(), id), sorted), c), c)
  {
    var members := Filter(WithKey(BlockOf(), id), sorted);
    FilterMembers(WithKey(BlockOf(), id), sorted);
    assert forall k :: 0 <= k < |members| ==> members[k] in members;
    assert BuiltFrom(DraftOf(id, members, c), members, c);
  }

  lemma {:induction false} DraftsForIds(ids: seq<string>, sorted: seq<Component>, c: Constraints)
    ensures |DraftsFor(ids, sorted, c)| == |ids|
    ensures forall k :: 0 <= k < |ids| ==> DraftsFor(ids, sorted, c)[k].id == ids[k]
  {
    if ids != [] {
      DraftsForIds(ids[..|ids| - 1], sorted, c);
    }
  }

  lemma {:induction false} DraftsForBuilt(ids: seq<string>, sorted: seq<Component>, c: Constraints)
    ensures Built(DraftsFor(ids, sorted, c), c)
  {
    if ids != [] {
      var n := |ids| - 1;
      var before := DraftsFor(ids[..n], sorted, c);
      var next := DraftOf(ids[n], Filter(WithKey(BlockOf(), ids[n]), sorted), c);
      assert DraftsFor(ids, sorted, c) == before + [next];
      DraftsForBuilt(ids[..n], sorted, c);
      GroupBuilt(ids[n], sorted, c);
      OneMoreBuilt(before, next, c);
    }
  }

  lemma OneMoreBuilt(drafts: seq<Draft>, next: Draft, c: Constraints)
    requires Built(drafts, c) && IsBuilt(next, c)
    ensures Built(drafts + [next], c)
  {
  }

  lemma DraftsExact(less: Less, components: seq<Component>, c: Constraints)
    ensures Built(Drafts(less, components, c), c) && DistinctDrafts(Drafts(less, components, c))
  {
    var sorted := SortBy(ByComponentId(less), components);
    var ids := SortBy(ByName(less), BlockIds(sorted));
    BlockIdsExact(sorted);
    SortPermutes(ByName(less), BlockIds(sorted));
    DistinctMultiset(BlockIds(sorted), ids);
    DraftsForIds(ids, sorted, c);
    DraftsForBuilt(ids, sorted, c);
  }

  lemma RankedSafeIff(less: Less, l: Layout)
    ensures PartsSafe(WithRanks(less, l).placements, l.blocks) <==> PartsSafe(l.placements, l.blocks)
  {
    var ranked := WithRanks(less, l).placements;
    RankedKeeps(l.placements, SortBy(GlobalOrder(less, l.placements), UpTo(|l.placements|)));
    forall k | 0 <= k < |ranked| ensures Housed(ranked[k], l.blocks) <==> Housed(l.placements[k], l.blocks) {
      SameHouse(ranked[k], l.placements[k], l.blocks);
    }
  }

  lemma SameHouse(p: Placed, q: Placed, blocks: seq<Reservation>)
    requires p.component == q.component && p.bounds == q.bounds
    ensures Housed(p, blocks) <==> Housed(q, blocks)
  {
    assert forall k :: 0 <= k < |blocks| ==> (HousedBy(p, blocks[k]) <==> HousedBy(q, blocks[k]));
  }

  /** Main result: the parts of any plan lie inside the reservations of their own blocks
      and keep off each other exactly when the row of every reserved block does so at the
      corner of the sheet grid. Sizes, padding and spacing are arbitrary. */
  lemma PlanPartsSafeIff(less: Less, page: Page, fallback: Option<Page>, allowFallback: bool, input: PlanInput)
    requires SearchesOnGrid(Planned(less, page, fallback, allowFallback, input).page.sheet.grid)
    ensures var plan, c := Planned(less, page, fallback, allowFallback, input), input.constraints;
      PartsSafe(plan.layout.placements, plan.layout.blocks) <==>
      OnReserved(IsSound(less, c, plan.page.sheet.grid), Drafts(less, input.components, c), plan.layout.blocks)
  {
    var plan := Planned(less, page, fallback, allowFallback, input);
    var drafts := Drafts(less, input.components, input.constraints);
    DraftsExact(less, input.components, input.constraints);
    LaidOutTracked(less, plan.page.sheet, drafts, input);
    RankedSafeIff(less, LaidOut(less, plan.page.sheet, drafts, input));
  }

  // ----- when a row is sound, in numbers -----

  /** The reservation measured for a row, at the given corner. */
  function Home(members: seq<Component>, c: Constraints, x: int, y: int): Bounds {
    var along := Extent(c, members) + 2 * c.blockPadding;
    var across := MaxAcross(c.topToBottom, members) + 2 * c.blockPadding;
    if c.topToBottom then Bounds(x, y, across, along) else Bounds(x, y, along, across)
  }

  function Row(members: seq<Component>, c: Constraints, grid: int, x: int, y: int): seq<Placed> {
    PlaceFrom(Snapper(grid), members, x + c.blockPadding, y + c.blockPadding, c, 0)
  }

  /** Where part k of a row at the corner of the grid is snapped to. */
  function Offset(members: seq<Component>, c: Constraints, grid: int, k: nat): int
    requires k <= |members|
  {
    SnapToGrid(Cursor(c, members[..k], c.blockPadding, c.blockPadding), grid)
  }

  predicate Held(members: seq<Component>, c: Constraints, grid: int, k: nat)
    requires k < |members|
  {
    var v, base := c.topToBottom, SnapToGrid(c.blockPadding, grid);
    && 0 <= Offset(members, c, grid, k)
    && Offset(members, c, grid, k) + Along(v, members[k]) <= Extent(c, members) + 2 * c.blockPadding
    && 0 <= base && base + Across(v, members[k]) <= MaxAcross(v, members) + 2 * c.blockPadding
  }

  predicate KeptApart(members: seq<Component>, c: Constraints, grid: int, k: nat)
    requires k + 1 < |members|
  {
    Offset(members, c, grid, k) + Along(c.topToBottom, members[k]) <= Offset(members, c, grid, k + 1)
  }

  predicate RowSound(members: seq<Component>, c: Constraints, grid: int) {
    && (forall k :: 0 <= k < |members| ==> Held(members, c, grid, k))
    && (forall k :: 0 <= k < |members| - 1 ==> KeptApart(members, c, grid, k))
  }

  lemma HeldExact(members: seq<Component>, c: Constraints, grid: int, k: nat)
    requires k < |members|
    ensures Held(members, c, grid, k) <==> Inside(Row(members, c, grid, 0, 0)[k].bounds, Home(members, c, 0, 0))
  {
    PartStands(members, c.blockPadding, c.blockPadding, c, grid, 0, k);
  }

  lemma OffsetsOrdered(members: seq<Component>, c: Constraints, grid: int, j: nat, k: nat)
    requires Solid(members, c) && j <= k <= |members|
    ensures Offset(members, c, grid, j) <= Offset(members, c, grid, k)
  {
    var p := c.blockPadding;
    CursorOrdered(members, p, p, c, j, k);
    SnapMonotone(Cursor(c, members[..j], p, p), Cursor(c, members[..k], p, p), grid);
  }

  /** Parts in line across the flow are disjoint exactly when one ends before the other. */
  lemma InLineDisjointIff(v: bool, a: Bounds, b: Bounds, low: int, along: int, next: int, alongNext: int,
                          base: int, across: int, acrossNext: int)
    requires StandsAt(v, a, low, along, base, across) && StandsAt(v, b, next, alongNext, base, acrossNext)
    requires along > 0 && alongNext > 0 && across > 0 && acrossNext > 0 && low <= next
    ensures Disjoint(a, b) <==> low + along <= next
  {
  }

  lemma PairExact(members: seq<Component>, c: Constraints, grid: int, i: nat, j: nat)
    requires Extended(members) && c.componentSpacing >= 0 && i < j < |members|
    ensures Disjoint(Row(members, c, grid, 0, 0)[i].bounds, Row(members, c, grid, 0, 0)[j].bounds) <==>
      Offset(members, c, grid, i) + Along(c.topToBottom, members[i]) <= Offset(members, c, grid, j)
  {
    var p, v, row := c.blockPadding, c.topToBottom, Row(members, c, grid, 0, 0);
    PartStands(members, p, p, c, grid, 0, i);
    PartStands(members, p, p, c, grid, 0, j);
    OffsetsOrdered(members, c, grid, i, j);
    InLineDisjointIff(v, row[i].bounds, row[j].bounds, Offset(members, c, grid, i), Along(v, members[i]),
      Offset(members, c, grid, j), Along(v, members[j]), SnapToGrid(p, grid), Across(v, members[i]),
      Across(v, members[j]));
  }

  ghost predicate AllInside(placed: seq<Placed>, outer: Bounds) {
    forall k :: 0 <= k < |placed| ==> Inside(placed[k].bounds, outer)
  }

  lemma RowInside(members: seq<Component>, c: Constraints, grid: int)
    ensures AllInside(Row(members, c, grid, 0, 0), Home(members, c, 0, 0)) <==>
      forall k :: 0 <= k < |members| ==> Held(members, c, grid, k)
  {
    forall k: nat | k < |members|
      ensures Held(members, c, grid, k) <==> Inside(Row(members, c, grid, 0, 0)[k].bounds, Home(members, c, 0, 0))
    {
      HeldExact(members, c, grid, k);
    }
  }

  lemma RowApartHere(members: seq<Component>, c: Constraints, grid: int)
    requires Extended(members) && c.componentSpacing >= 0
    ensures PairwiseDisjoint(Row(members, c, grid, 0, 0)) <==>
      forall k :: 0 <= k < |members| - 1 ==> KeptApart(members, c, grid, k)
  {
    var row := Row(members, c, grid, 0, 0);
    if forall k :: 0 <= k < |members| - 1 ==> KeptApart(members, c, grid, k) {
      forall i: nat, j: nat | i < j < |members| ensures Disjoint(row[i].bounds, row[j].bounds) {
        assert KeptApart(members, c, grid, i);
        OffsetsOrdered(members, c, grid, i + 1, j);
        PairExact(members, c, grid, i, j);
      }
    }
    if PairwiseDisjoint(row) {
      forall k: nat | k < |members| - 1 ensures KeptApart(members, c, grid, k) {
        assert Disjoint(row[k].bounds, row[k + 1].bounds);
        PairExact(members, c, grid, k, k + 1);
      }
    }
  }

  /** The row at the corner of the grid is sound exactly when every snapped part ends
      within the measured length and before the next one. */
  lemma RowSoundIff(members: seq<Component>, c: Constraints, grid: int)
    requires Extended(members) && c.componentSpacing >= 0
    ensures Nested(Row(members, c, grid, 0, 0), Home(members, c, 0, 0)) <==> RowSound(members, c, grid)
  {
    RowInside(members, c, grid);
    RowApartHere(members, c, grid);
  }

  lemma HomeOfBlock(less: Less, block: Draft, members: seq<Component>, c: Constraints)
    requires BuiltFrom(block, members, c)
    ensures Home(Members(less, block), c, 0, 0) == Bounds(0, 0, block.width, block.height)
    ensures Extended(members) ==> Extended(Members(less, block))
  {
    DraftMeasured(less, block.id, members, c);
    MultisetMembers(Members(less, block), members);
    assert forall k :: 0 <= k < |Members(less, block)| ==> Members(less, block)[k] in members;
  }

  /** The same for a block, with its members in placement order. */
  lemma SoundIff(less: Less, block: Draft, members: seq<Component>, c: Constraints, grid: int)
    requires BuiltFrom(block, members, c) && Extended(members) && c.componentSpacing >= 0
    ensures Sound(less, block, c, grid) <==> RowSound(Members(less, block), c, grid)
  {
    HomeOfBlock(less, block, members, c);
    RowSoundIff(Members(less, block), c, grid);
  }

  // ----- rows inside their block at every start -----

  ghost predicate AlwaysInside(members: seq<Component>, c: Constraints, grid: int) {
    forall x, y :: AllInside(Row(members, c, grid, x, y), Home(members, c, x, y))
  }

  lemma LastEnds(members: seq<Component>, c: Constraints, x: int, y: int)
    requires members != []
    ensures var n := |members| - 1;
      Cursor(c, members[..n], x, y) + Along(c.topToBottom, members[n]) == AlongStart(c, x, y) + Extent(c, members)
  {
    var n := |members| - 1;
    CursorNext(members, x, y, c, n);
    assert members[..n + 1] == members;
    CursorExact(members, x, y, c);
    CursorExact(members, 0, 0, c);
  }

  /** Too little padding lets the last part of some row stick out. */
  lemma SticksOut(members: seq<Component>, c: Constraints, grid: int) returns (x: int, y: int)
    requires members != [] && c.blockPadding < Max(0, grid) / 2
    ensures !AllInside(Row(members, c, grid, x, y), Home(members, c, x, y))
  {
    var n, p := |members| - 1, c.blockPadding;
    x, y := StartFor(members, c, n, WorstStart(Max(0, grid)));
    x, y := x - p, y - p;
    LastEnds(members, c, x + p, y + p);
    PartStands(members, x + p, y + p, c, grid, 0, n);
    if grid > 0 {
      WorstSnap(0, grid);
    }
    assert !Inside(Row(members, c, grid, x, y)[n].bounds, Home(members, c, x, y));
  }

  /** A row stays inside its block wherever the block stands exactly when the padding is
      half a grid step or more. */
  lemma RowInsideIff(members: seq<Component>, c: Constraints, grid: int)
    requires members != [] && Solid(members, c)
    ensures AlwaysInside(members, c, grid) <==> c.blockPadding >= Max(0, grid) / 2
  {
    if c.blockPadding >= Max(0, grid) / 2 {
      forall x, y ensures AllInside(Row(members, c, grid, x, y), Home(members, c, x, y)) {
        forall k: nat | k < |members| ensures Inside(Row(members, c, grid, x, y)[k].bounds, Home(members, c, x, y)) {
          PartInside(members, Home(members, c, x, y), c, grid, 0, k);
        }
      }
    } else {
      var x, y := SticksOut(members, c, grid);
    }
  }

  /** An input without padding: two parts 16 units wide, spacing and grid 10. The second
      is pushed to 30 units and ends at 46, in a block 42 units long. */
  lemma UnpaddedPartSticksOut(a: Component, b: Component)
    requires Width(a) == Width(b) == 16 * UNIT && Height(a) == Height(b) == 10 * UNIT
    ensures var c := Constraints(0, 0, 10 * UNIT, false);
      && Home([a, b], c, 0, 0).width == 42 * UNIT && !RowSound([a, b], c, 10 * UNIT)
      && Offset([a, b], c, 10 * UNIT, 1) + Width(b) == 46 * UNIT
  {
    var c := Constraints(0, 0, 10 * UNIT, false);
    assert [a, b][..1] == [a] && [a, b][..2] == [a, b] && [a][..0] == [];
    assert CursorX(c, [a], 0) == 26 * UNIT;
    assert 62 * UNIT / (20 * UNIT) == 3;
    assert SnapToGrid(26 * UNIT, 10 * UNIT) == 30 * UNIT;
    assert !Held([a, b], c, 10 * UNIT, 1);
  }
}
