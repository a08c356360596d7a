/** The planner's loops, each proved to build what the plan's definition says. */
module Planner {
  import opened Basics
  import opened SchematicGeometry
  import opened Placement
  import opened PlannerModel

  method BuildBlockDrafts(less: Less, components: seq<Component>, c: Constraints) returns (drafts: seq<Draft>)
    ensures drafts == Drafts(less, components, c)
  {
    var sorted := SortBy(ByComponentId(less), components);
    var groups, keys := GroupBy(BlockOf(), sorted);
    SortPermutes(ByName(less), keys);
    MultisetMembers(SortBy(ByName(less), keys), keys);
    forall id | id in keys ensures groups[id] == Filter(WithKey(BlockOf(), id), sorted) {
      assert GroupIs(BlockOf(), groups, id, sorted);
    }
    drafts := DraftGroups(groups, SortBy(ByName(less), keys), sorted, c);
  }

  method DraftGroups(groups: map<string, seq<Component>>, ids: seq<string>, ghost sorted: seq<Component>,
                     c: Constraints)
    returns (drafts: seq<Draft>)
    requires forall id :: id in ids ==> id in groups && groups[id] == Filter(WithKey(BlockOf(), id), sorted)
    ensures drafts == DraftsFor(ids, sorted, c)
  {
    drafts := [];
    for i := 0 to |ids|
      invariant drafts == DraftsFor(ids[..i], sorted, c)
    {
      assert ids[..i + 1][..i] == ids[..i] && ids[i] in ids;
      drafts := drafts + [DraftOf(ids[i], groups[ids[i]], c)];
    }
    assert ids[..|ids|] == ids;
  }

  method PlaceMembers(less: Less, block: Draft, bounds: Bounds, c: Constraints, grid: int, startOrder: nat)
    returns (placements: seq<Placed>)
    ensures placements == PlacedMembers(less, block, bounds, c, grid, startOrder)
  {
    placements := PlaceRow(Snapper(grid), Members(less, block), bounds.x + c.blockPadding, bounds.y + c.blockPadding,
      c, startOrder);
  }

  lemma PlaceNext(snap: int -> int, s: seq<Component>, i: nat, x: int, y: int, c: Constraints, order: nat)
    requires i < |s|
    ensures CursorX(c, s[..i + 1], x) == NextX(c, s[i], CursorX(c, s[..i], x))
    ensures CursorY(c, s[..i + 1], y) == NextY(c, s[i], CursorY(c, s[..i], y))
    ensures PlaceFrom(snap, s[..i + 1], x, y, c, order) == PlaceFrom(snap, s[..i], x, y, c, order)
      + [PlaceOne(snap, s[i], CursorX(c, s[..i], x), CursorY(c, s[..i], y), order + i)]
  {
    assert s[..i + 1][..i] == s[..i];
  }

  /** The cursor loop of placeMembers. */
  method PlaceRow(snap: int -> int, ordered: seq<Component>, x: int, y: int, c: Constraints, startOrder: nat)
    returns (placements: seq<Placed>)
    ensures placements == PlaceFrom(snap, ordered, x, y, c, startOrder)
  {
    var cursorX, cursorY := x, y;
    placements := [];
    for i := 0 to |ordered|
      invariant placements == PlaceFrom(snap, ordered[..i], x, y, c, startOrder)
      invariant cursorX == CursorX(c, ordered[..i], x) && cursorY == CursorY(c, ordered[..i], y)
    {
      var component := ordered[i];
      PlaceNext(snap, ordered, i, x, y, c, startOrder);
      placements := placements + [PlaceOne(snap, component, cursorX, cursorY, startOrder + i)];
      if c.topToBottom {
        cursorY := cursorY + Height(component) + c.componentSpacing;
      } else {
        cursorX := cursorX + Width(component) + c.componentSpacing;
      }
    }
    assert ordered[..|ordered|] == ordered;
  }

  method SummarizeConflicts(conflicts: seq<Conflict>, blockId: string) returns (problems: seq<Problem>)
    ensures problems == ConflictSummary(conflicts, blockId)
  {
    if conflicts == [] {
      return [Problem(blockId, None)];
    }
    var codes: seq<Code> := [];
    for i := 0 to |conflicts|
      invariant codes == DistinctCodes(conflicts[..i])
    {
      assert conflicts[..i + 1][..i] == conflicts[..i];
      if conflicts[i].code !in codes {
        codes := codes + [conflicts[i].code];
      }
    }
    assert conflicts[..|conflicts|] == conflicts;
    problems := ProblemsOf(codes, blockId);
  }

  method AttemptSheet(less: Less, sheet: Sheet, drafts: seq<Draft>, input: PlanInput) returns (layout: Layout)
    ensures layout == Attempt(less, sheet, drafts, input)
  {
    layout := ReserveBlocks(less, sheet, drafts, input);
    var placements := RankPlacements(less, layout.placements);
    layout := layout.(placements := placements);
  }

  /** The block loop of attemptSheet. */
  method ReserveBlocks(less: Less, sheet: Sheet, drafts: seq<Draft>, input: PlanInput) returns (layout: Layout)
    ensures layout == LaidOut(less, sheet, drafts, input)
  {
    var occupancy, blocks, placements, conflicts := input.existing, [], [], [];
    for i := 0 to |drafts|
      invariant Layout(blocks, placements, occupancy, conflicts) == LaidOut(less, sheet, drafts[..i], input)
    {
      assert drafts[..i + 1][..i] == drafts[..i];
      var block := drafts[i];
      var request := Request(sheet, block, input, occupancy);
      var check := CheckPlacement(less, request);
      var selected := Chosen(request, check);
      if selected.None? {
        var problems := SummarizeConflicts(check.check.conflicts, block.id);
        conflicts := conflicts + problems;
        continue;
      }
      var bounds := selected.value.bounds;
      blocks := blocks + [Reservation(block.id, bounds)];
      occupancy := occupancy + [Region("block:" + block.id, CallerReserved, bounds)];
      var placed := PlaceMembers(less, block, bounds, input.constraints, sheet.grid, |placements|);
      placements := placements + placed;
    }
    assert drafts[..|drafts|] == drafts;
    layout := Layout(blocks, placements, occupancy, conflicts);
  }

  /** The placements in global order receive their ranks; their positions in the list stay. */
  method RankPlacements(less: Less, start: seq<Placed>) returns (placements: seq<Placed>)
    ensures placements == Ranked(start, SortBy(GlobalOrder(less, start), UpTo(|start|)))
  {
    placements := start;
    var order := SortBy(GlobalOrder(less, start), UpTo(|start|));
    SortPermutes(GlobalOrder(less, start), UpTo(|start|));
    MultisetMembers(order, UpTo(|start|));
    for index := 0 to |order|
      invariant placements == Ranked(start, order[..index])
    {
      assert order[..index + 1][..index] == order[..index];
      assert order[index] in order;
      placements := placements[order[index] := placements[order[index]].(placementOrder := index)];
    }
    assert order[..|order|] == order;
  }

  method PlanFunctionalLayout(less: Less, page: Page, fallback: Option<Page>, allowFallback: bool, input: PlanInput)
    returns (plan: Plan)
    ensures plan == Planned(less, page, fallback, allowFallback, input)
  {
    var drafts := BuildBlockDrafts(less, input.components, input.constraints);
    var layout := AttemptSheet(less, page.sheet, drafts, input);
    var selected := page;
    if !AllPlaced(layout, drafts) && allowFallback && page.size == A4 && fallback.Some? && fallback.value.size == A3 {
      var other := AttemptSheet(less, fallback.value.sheet, drafts, input);
      if AllPlaced(other, drafts) {
        layout, selected := other, fallback.value;
      }
    }
    plan := Plan(AllPlaced(layout, drafts), selected, layout, Parts(SortBy(ByRank(), layout.placements)));
  }
}
