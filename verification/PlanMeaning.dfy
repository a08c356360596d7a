/** What a plan says about its parts and blocks, read off their own fields. */
module PlanMeaning {
  import opened Basics
  import opened SchematicGeometry
  import opened Placement
  import opened PlannerModel
  import opened PlannerTheorems
  import opened PlanSafety
  import opened PlanExact

  // ----- rotation and size -----

  /** The component may be turned by r; without a list it may be turned by any quarter. */
  predicate Allowed(c: Component, r: int) {
    if c.allowedRotations.Some? then r in c.allowedRotations.value else r == 0 || r == 90 || r == 180 || r == 270
  }

  /** The preferred rotation if it is allowed, else the least allowed one, else none. */
  ghost predicate RightlyTurned(p: Placed) {
    var c := p.component;
    if c.preferredRotation.Some? && Allowed(c, c.preferredRotation.value) then p.rotation == c.preferredRotation.value
    else if exists r :: Allowed(c, r) then Allowed(c, p.rotation) && forall r :: Allowed(c, r) ==> p.rotation <= r
    else p.rotation == 0
  }

  /** A quarter turn exchanges the sides. */
  predicate RightlySized(p: Placed) {
    if p.rotation == 90 || p.rotation == 270
    then p.bounds.width == p.component.height && p.bounds.height == p.component.width
    else p.bounds.width == p.component.width && p.bounds.height == p.component.height
  }

  ghost predicate Upright(p: Placed) {
    RightlyTurned(p) && RightlySized(p)
  }

  lemma {:induction false} LeastExact(s: seq<int>)
    requires s != []
    ensures Least(s) in s && forall v :: v in s ==> Least(s) <= v
  {
    if |s| > 1 {
      LeastExact(s[1..]);
      assert s == [s[0]] + s[1..];
    }
  }

  lemma OneUpright(snap: int -> int, m: Component, x: int, y: int, order: nat)
    ensures Upright(PlaceOne(snap, m, x, y, order))
  {
    var allowed := if m.allowedRotations.Some? then m.allowedRotations.value else [0, 90, 180, 270];
    assert forall r :: Allowed(m, r) <==> r in allowed;
    if allowed != [] {
      LeastExact(allowed);
      assert Allowed(m, Least(allowed));
    }
  }

  ghost predicate AllUpright(placed: seq<Placed>) {
    forall k :: 0 <= k < |placed| ==> Upright(placed[k])
  }

  lemma RowUpright(snap: int -> int, members: seq<Component>, x: int, y: int, c: Constraints, order: nat)
    ensures AllUpright(PlaceFrom(snap, members, x, y, c, order))
  {
    forall k: nat | k < |members| ensures Upright(PlaceFrom(snap, members, x, y, c, order)[k]) {
      PartAt(snap, members, x, y, c, order, k);
      OneUpright(snap, members[k], CursorX(c, members[..k], x), CursorY(c, members[..k], y), order + k);
    }
  }

  /** Where a block goes, if anywhere. */
  function ChosenBounds(less: Less, sheet: Sheet, block: Draft, input: PlanInput, l: Layout): Option<Bounds> {
    var request := Request(sheet, block, input, l.occupancy);
    match Chosen(request, PlacementResult(less, request))
    case None => None
    case Some(selected) => Some(selected.bounds)
  }

  lemma AddBlockCases(less: Less, sheet: Sheet, block: Draft, input: PlanInput, l: Layout)
    ensures var b, next := ChosenBounds(less, sheet, block, input, l), AddBlock(less, sheet, block, input, l);
      && (b.Some? ==> next == Reserve(less, sheet, block, input, l, b.value))
      && (b.None? ==> next.blocks == l.blocks && next.placements == l.placements && next.occupancy == l.occupancy)
  {
  }

  lemma ReserveUpright(less: Less, sheet: Sheet, block: Draft, input: PlanInput, l: Layout, b: Bounds)
    requires AllUpright(l.placements)
    ensures AllUpright(Reserve(less, sheet, block, input, l, b).placements)
  {
    RowUpright(Snapper(sheet.grid), Members(less, block), b.x + input.constraints.blockPadding,
      b.y + input.constraints.blockPadding, input.constraints, |l.placements|);
  }

  lemma {:induction false} LaidOutUpright(less: Less, sheet: Sheet, drafts: seq<Draft>, input: PlanInput)
    ensures AllUpright(LaidOut(less, sheet, drafts, input).placements)
  {
    if drafts != [] {
      var n := |drafts| - 1;
      var before := LaidOut(less, sheet, drafts[..n], input);
      var b := ChosenBounds(less, sheet, drafts[n], input, before);
      LaidOutUpright(less, sheet, drafts[..n], input);
      AddBlockCases(less, sheet, drafts[n], input, before);
      if b.Some? {
        ReserveUpright(less, sheet, drafts[n], input, before, b.value);
      }
    }
  }

  lemma RankedUpright(placements: seq<Placed>, order: seq<nat>)
    requires AllUpright(placements)
    ensures AllUpright(Ranked(placements, order))
  {
    RankedKeeps(placements, order);
    forall k | 0 <= k < |placements| ensures Upright(Ranked(placements, order)[k]) {
      assert Upright(placements[k]);
    }
  }

  /** Every part of any plan is turned as its component asks for, and its bounds are the component's sides in
      that rotation. */
  lemma PartsUpright(less: Less, page: Page, fallback: Option<Page>, allowFallback: bool, input: PlanInput)
    ensures AllUpright(Planned(less, page, fallback, allowFallback, input).layout.placements)
  {
    var plan := Planned(less, page, fallback, allowFallback, input);
    var l := LaidOut(less, plan.page.sheet, Drafts(less, input.components, input.constraints), input);
    LaidOutUpright(less, plan.page.sheet, Drafts(less, input.components, input.constraints), input);
    RankedUpright(l.placements, SortBy(GlobalOrder(less, l.placements), UpTo(|l.placements|)));
  }

  // ----- the order of a plan -----

  /** a may stand before b: mains first, then by block, then by id. */
  predicate ListedBefore(less: Less, a: Component, b: Component) {
    (a.main && !b.main)
    || (a.main == b.main &&
         (less(a.blockId, b.blockId) || (a.blockId == b.blockId && (less(a.id, b.id) || a.id == b.id))))
  }

  lemma ListedBeforeExact(less: Less, a: Component, b: Component)
    requires StrictTotalOrder(less)
    ensures GlobalLe(less, a, b) <==> ListedBefore(less, a, b)
  {
  }

  ghost predicate RanksRise(s: seq<Placed>) {
    forall i, j :: 0 <= i < j < |s| ==> s[i].placementOrder < s[j].placementOrder
  }

  lemma {:induction false} RankAtLeast(s: seq<Placed>, k: nat)
    requires RanksRise(s) && k < |s|
    ensures s[k].placementOrder >= k
  {
    if k > 0 {
      RankAtLeast(s, k - 1);
    }
  }

  lemma {:induction false} RankAtMost(s: seq<Placed>, k: nat)
    requires RanksRise(s) && k < |s| && forall i :: 0 <= i < |s| ==> s[i].placementOrder < |s|
    ensures s[k].placementOrder <= k
    decreases |s| - k
  {
    if k + 1 < |s| {
      RankAtMost(s, k + 1);
    }
  }

  ghost predicate Permutation(order: seq<nat>, n: nat) {
    |order| == n && Distinct(order) && forall i: nat :: i in order <==> i < n
  }

  lemma RanksDiffer(placements: seq<Placed>, order: seq<nat>, i: nat, j: nat)
    requires Permutation(order, |placements|) && i < |placements| && j < |placements| && i != j
    ensures Ranked(placements, order)[i].placementOrder != Ranked(placements, order)[j].placementOrder
  {
    var a := RankOf(placements, order, i);
    var b := RankOf(placements, order, j);
  }

  lemma PartAtRank(placements: seq<Placed>, order: seq<nat>, i: nat)
    requires Permutation(order, |placements|) && i < |placements|
    ensures var r := Ranked(placements, order)[i].placementOrder; r < |order| && order[r] == i
  {
    var r := RankOf(placements, order, i);
  }

  /** Sorting by rank puts each part where its rank says. */
  lemma RankIsPlace(placements: seq<Placed>, order: seq<nat>, k: nat)
    requires Permutation(order, |placements|) && k < |placements|
    ensures order[k] < |placements|
    ensures SortBy(ByRank(), Ranked(placements, order))[k] == Ranked(placements, order)[order[k]]
  {
    var ranked, sorted := Ranked(placements, order), SortBy(ByRank(), Ranked(placements, order));
    SortedRanksRise(placements, order);
    RankAtLeast(sorted, k);
    RankAtMost(sorted, k);
    var i := SortedFrom(ranked, k);
    PartAtRank(placements, order, i);
  }

  lemma SortedFrom(ranked: seq<Placed>, k: nat) returns (i: nat)
    requires k < |ranked|
    ensures i < |ranked| && ranked[i] == SortBy(ByRank(), ranked)[k]
  {
    var sorted := SortBy(ByRank(), ranked);
    SortPermutes(ByRank(), ranked);
    MultisetMembers(sorted, ranked);
    assert sorted[k] in sorted;
    i :| i < |ranked| && ranked[i] == sorted[k];
  }

  lemma SortedRanksRise(placements: seq<Placed>, order: seq<nat>)
    requires Permutation(order, |placements|)
    ensures var sorted := SortBy(ByRank(), Ranked(placements, order));
      RanksRise(sorted) && forall i :: 0 <= i < |sorted| ==> sorted[i].placementOrder < |sorted|
  {
    var ranked, sorted := Ranked(placements, order), SortBy(ByRank(), Ranked(placements, order));
    SortPermutes(ByRank(), ranked);
    SortOrdered(ByRank(), ranked);
    forall i, j | 0 <= i < j < |ranked| ensures ranked[i] != ranked[j] {
      RanksDiffer(placements, order, i, j);
    }
    DistinctMultiset(ranked, sorted);
    forall i, j | 0 <= i < j < |sorted| ensures sorted[i].placementOrder < sorted[j].placementOrder {
      var a := SortedFrom(ranked, i);
      var b := SortedFrom(ranked, j);
      assert ByRank()(sorted[i], sorted[j]);
      RanksDiffer(placements, order, a, b);
    }
    forall i | 0 <= i < |sorted| ensures sorted[i].placementOrder < |sorted| {
      var a := SortedFrom(ranked, i);
      PartAtRank(placements, order, a);
    }
  }

  lemma PlaceOfPart(placements: seq<Placed>, order: seq<nat>, k: nat)
    requires Permutation(order, |placements|) && k < |placements|
    ensures order[k] < |placements|
    ensures Parts(SortBy(ByRank(), Ranked(placements, order)))[k] == placements[order[k]].component
  {
    RankIsPlace(placements, order, k);
    RankedKeeps(placements, order);
  }

  lemma PartsInOrder(less: Less, ps: seq<Placed>, order: seq<nat>, i: nat, j: nat)
    requires StrictTotalOrder(less) && Permutation(order, |ps|) && Ordered(GlobalOrder(less, ps), order)
    requires i < j < |ps|
    ensures var parts := Parts(SortBy(ByRank(), Ranked(ps, order))); ListedBefore(less, parts[i], parts[j])
  {
    PlaceOfPart(ps, order, i);
    PlaceOfPart(ps, order, j);
    assert GlobalOrder(less, ps)(order[i], order[j]);
    ListedBeforeExact(less, ps[order[i]].component, ps[order[j]].component);
  }

  lemma PartCarriesPlace(ps: seq<Placed>, order: seq<nat>, k: nat)
    requires Permutation(order, |ps|) && k < |ps|
    ensures var p := Ranked(ps, order)[k];
      p.placementOrder < |ps| && Parts(SortBy(ByRank(), Ranked(ps, order)))[p.placementOrder] == p.component
  {
    PartAtRank(ps, order, k);
    PlaceOfPart(ps, order, Ranked(ps, order)[k].placementOrder);
    RankedKeeps(ps, order);
  }

  /** The order of any plan, exactly: mains before supports, then by block, then by id, and every part carries
      its own place in it. */
  lemma PlanOrderMeans(less: Less, page: Page, fallback: Option<Page>, allowFallback: bool, input: PlanInput)
    requires StrictTotalOrder(less)
    ensures var plan := Planned(less, page, fallback, allowFallback, input);
      && |plan.order| == |plan.layout.placements|
      && (forall i, j :: 0 <= i < j < |plan.order| ==> ListedBefore(less, plan.order[i], plan.order[j]))
      && (forall k :: 0 <= k < |plan.layout.placements| ==>
            var p := plan.layout.placements[k];
            p.placementOrder < |plan.order| && plan.order[p.placementOrder] == p.component)
  {
    var plan := Planned(less, page, fallback, allowFallback, input);
    var l := LaidOut(less, plan.page.sheet, Drafts(less, input.components, input.constraints), input);
    var ps, order := l.placements, SortBy(GlobalOrder(less, l.placements), UpTo(|l.placements|));
    GlobalOrderExact(less, ps);
    forall i, j | 0 <= i < j < |plan.order| ensures ListedBefore(less, plan.order[i], plan.order[j]) {
      PartsInOrder(less, ps, order, i, j);
    }
    forall k: nat | k < |ps|
      ensures var p := plan.layout.placements[k];
        p.placementOrder < |plan.order| && plan.order[p.placementOrder] == p.component
    {
      PartCarriesPlace(ps, order, k);
    }
  }

  // ----- which blocks are reserved, and which parts are placed -----

  ghost predicate HasProblem(problems: seq<Problem>, id: string) {
    exists k :: 0 <= k < |problems| && problems[k].blockId == id
  }

  /** A block is refused with a problem or reserved, once. */
  ghost predicate Decided(l: Layout, drafts: seq<Draft>) {
    && OfDrafts(l, drafts)
    && (forall id :: Listed(drafts, id) ==> (Reserved(l.blocks, id) <==> !HasProblem(l.conflicts, id)))
    && (forall id :: HasProblem(l.conflicts, id) ==> Listed(drafts, id))
    && (forall i, j :: 0 <= i < j < |l.blocks| ==> l.blocks[i].blockId != l.blocks[j].blockId)
  }

  lemma {:induction false} ProblemsNamed(codes: seq<Code>, id: string)
    ensures forall p :: p in ProblemsOf(codes, id) ==> p.blockId == id
  {
    if codes != [] {
      ProblemsNamed(codes[1..], id);
    }
  }

  lemma SummaryNamed(conflicts: seq<Conflict>, id: string, other: string)
    ensures HasProblem(ConflictSummary(conflicts, id), other) <==> other == id
  {
    var problems := ConflictSummary(conflicts, id);
    SummaryNotEmpty(conflicts, id);
    ProblemsNamed(DistinctCodes(conflicts), id);
    assert problems[0] in problems;
    if k :| 0 <= k < |problems| && problems[k].blockId == other {
      assert problems[k] in problems;
    }
  }

  lemma ProblemsJoined(a: seq<Problem>, b: seq<Problem>, id: string)
    ensures HasProblem(a + b, id) <==> HasProblem(a, id) || HasProblem(b, id)
  {
    if k :| 0 <= k < |a| && a[k].blockId == id {
      assert (a + b)[k].blockId == id;
    }
    if k :| 0 <= k < |b| && b[k].blockId == id {
      assert (a + b)[|a| + k].blockId == id;
    }
  }

  lemma RefusedDecided(l: Layout, next: Layout, drafts: seq<Draft>, block: Draft, conflicts: seq<Conflict>)
    requires Decided(l, drafts) && !Listed(drafts, block.id)
    requires next == l.(conflicts := l.conflicts + ConflictSummary(conflicts, block.id))
    ensures Decided(next, drafts + [block])
  {
    OfDraftsKept(l, drafts, block);
    forall id
      ensures HasProblem(next.conflicts, id) <==> HasProblem(l.conflicts, id) || id == block.id
      ensures Listed(drafts + [block], id) <==> Listed(drafts, id) || id == block.id
    {
      SummaryNamed(conflicts, block.id, id);
      ProblemsJoined(l.conflicts, ConflictSummary(conflicts, block.id), id);
      ListedLater(drafts, block, id);
    }
  }

  lemma ReservedDecided(l: Layout, next: Layout, drafts: seq<Draft>, block: Draft, r: Reservation, placed: seq<Placed>)
    requires Decided(l, drafts) && !Listed(drafts, block.id) && r.blockId == block.id
    requires Joins(l, next, r, placed) && next.conflicts == l.conflicts
    ensures Decided(next, drafts + [block])
  {
    OfDraftsJoined(l, next, r, placed, drafts, block);
    forall id
      ensures Reserved(next.blocks, id) <==> Reserved(l.blocks, id) || id == block.id
      ensures Listed(drafts + [block], id) <==> Listed(drafts, id) || id == block.id
    {
      ReservedMore(l.blocks, r, id);
      ListedLater(drafts, block, id);
    }
  }

  lemma BlockDecided(less: Less, sheet: Sheet, drafts: seq<Draft>, block: Draft, input: PlanInput, l: Layout)
    requires Decided(l, drafts) && !Listed(drafts, block.id) && IsBuilt(block, input.constraints)
    ensures Decided(AddBlock(less, sheet, block, input, l), drafts + [block])
  {
    var b := ChosenBounds(less, sheet, block, input, l);
    AddBlockCases(less, sheet, block, input, l);
    if b.Some? {
      ReserveJoins(less, sheet, block, input, l, b.value);
      ReservedDecided(l, Reserve(less, sheet, block, input, l, b.value), drafts, block, Reservation(block.id, b.value),
        PlacedMembers(less, block, b.value, input.constraints, sheet.grid, |l.placements|));
    } else {
      RefusedDecided(l, AddBlock(less, sheet, block, input, l), drafts, block,
        PlacementResult(less, Request(sheet, block, input, l.occupancy)).check.conflicts);
    }
  }

  lemma {:induction false} LaidOutDecided(less: Less, sheet: Sheet, drafts: seq<Draft>, input: PlanInput)
    requires DistinctDrafts(drafts) && Built(drafts, input.constraints)
    ensures Decided(LaidOut(less, sheet, drafts, input), drafts)
  {
    if drafts == [] {
      NothingTracked(less, sheet, input);
    } else {
      var n := |drafts| - 1;
      LastDraft(drafts, input.constraints);
      LaidOutDecided(less, sheet, drafts[..n], input);
      BlockDecided(less, sheet, drafts[..n], drafts[n], input, LaidOut(less, sheet, drafts[..n], input));
    }
  }

  /** The parts laid out are the members of the reserved blocks, each once. */
  ghost predicate PlacesReserved(l: Layout, drafts: seq<Draft>) {
    forall x :: multiset(Parts(l.placements))[x] ==
      if Reserved(l.blocks, x.blockId) then multiset(AllMembers(drafts))[x] else 0
  }

  lemma DraftMembers(block: Draft, c: Constraints, x: Component)
    requires IsBuilt(block, c) && x in block.mains + block.supports
    ensures x.blockId == block.id
  {
    var members :| BuiltFrom(block, members, c);
    FilterSplits(members);
    MultisetMembers(block.mains + block.supports, members);
    var k :| 0 <= k < |members| && members[k] == x;
  }

  lemma {:induction false} MembersListed(drafts: seq<Draft>, c: Constraints, x: Component)
    requires Built(drafts, c) && x in AllMembers(drafts)
    ensures Listed(drafts, x.blockId)
  {
    var n := |drafts| - 1;
    assert drafts == drafts[..n] + [drafts[n]];
    ListedLater(drafts[..n], drafts[n], x.blockId);
    if x in drafts[n].mains + drafts[n].supports {
      DraftMembers(drafts[n], c, x);
    } else {
      MembersListed(drafts[..n], c, x);
    }
  }

  lemma RefusedPlaces(l: Layout, next: Layout, drafts: seq<Draft>, block: Draft, c: Constraints)
    requires PlacesReserved(l, drafts) && OfDrafts(l, drafts) && !Listed(drafts, block.id) && IsBuilt(block, c)
    requires next.blocks == l.blocks && next.placements == l.placements
    ensures PlacesReserved(next, drafts + [block])
  {
    assert (drafts + [block])[..|drafts|] == drafts;
    forall x: Component ensures Reserved(l.blocks, x.blockId) ==> multiset(block.mains + block.supports)[x] == 0 {
      if x in block.mains + block.supports {
        DraftMembers(block, c, x);
      }
      assert multiset(block.mains + block.supports)[x] > 0 ==> x in block.mains + block.supports;
    }
  }

  lemma ReservedPlaces(l: Layout, next: Layout, drafts: seq<Draft>, block: Draft, r: Reservation, c: Constraints)
    requires PlacesReserved(l, drafts) && OfDrafts(l, drafts) && !Listed(drafts, block.id) && Built(drafts, c)
    requires IsBuilt(block, c) && r.blockId == block.id && next.blocks == l.blocks + [r]
    requires multiset(Parts(next.placements)) == multiset(Parts(l.placements)) + multiset(block.mains + block.supports)
    ensures PlacesReserved(next, drafts + [block])
  {
    assert (drafts + [block])[..|drafts|] == drafts;
    forall x ensures multiset(Parts(next.placements))[x] ==
      if Reserved(next.blocks, x.blockId) then multiset(AllMembers(drafts + [block]))[x] else 0
    {
      ReservedMore(l.blocks, r, x.blockId);
      assert multiset(block.mains + block.supports)[x] > 0 ==> x in block.mains + block.supports;
      assert multiset(AllMembers(drafts))[x] > 0 ==> x in AllMembers(drafts);
      if x in block.mains + block.supports {
        DraftMembers(block, c, x);
      }
      if x in AllMembers(drafts) {
        MembersListed(drafts, c, x);
      }
    }
  }

  lemma {:induction false} LaidOutPlaces(less: Less, sheet: Sheet, drafts: seq<Draft>, input: PlanInput)
    requires DistinctDrafts(drafts) && Built(drafts, input.constraints)
    ensures PlacesReserved(LaidOut(less, sheet, drafts, input), drafts)
  {
    if drafts != [] {
      var n, c := |drafts| - 1, input.constraints;
      var before := LaidOut(less, sheet, drafts[..n], input);
      LastDraft(drafts, c);
      LaidOutPlaces(less, sheet, drafts[..n], input);
      LaidOutDecided(less, sheet, drafts[..n], input);
      var b := ChosenBounds(less, sheet, drafts[n], input, before);
      AddBlockCases(less, sheet, drafts[n], input, before);
      if b.Some? {
        ReservedParts(less, sheet, drafts[n], input, before, b.value);
        ReservedPlaces(before, LaidOut(less, sheet, drafts, input), drafts[..n], drafts[n],
          Reservation(drafts[n].id, b.value), c);
      } else {
        RefusedPlaces(before, LaidOut(less, sheet, drafts, input), drafts[..n], drafts[n], c);
      }
    }
  }

  /** Some component belongs to the block. */
  ghost predicate HasBlock(components: seq<Component>, id: string) {
    exists k :: 0 <= k < |components| && components[k].blockId == id
  }

  lemma KeysHaveBlocks(sorted: seq<Component>, components: seq<Component>, id: string)
    requires multiset(sorted) == multiset(components)
    ensures id in BlockIds(sorted) <==> HasBlock(components, id)
  {
    MultisetMembers(sorted, components);
    FirstSeenExact(BlockOf(), sorted);
    if id in BlockIds(sorted) {
      var i :| 0 <= i < |sorted| && BlockOf()(sorted[i]) == id;
      assert sorted[i] in components;
    }
    if k :| 0 <= k < |components| && components[k].blockId == id {
      assert components[k] in sorted;
      var i :| 0 <= i < |sorted| && sorted[i] == components[k];
      assert BlockOf()(sorted[i]) == id;
    }
  }

  lemma DraftsHaveBlocks(less: Less, components: seq<Component>, c: Constraints, id: string)
    ensures Listed(Drafts(less, components, c), id) <==> HasBlock(components, id)
  {
    var sorted := SortBy(ByComponentId(less), components);
    var ids := SortBy(ByName(less), BlockIds(sorted));
    SortPermutes(ByComponentId(less), components);
    KeysHaveBlocks(sorted, components, id);
    SortPermutes(ByName(less), BlockIds(sorted));
    MultisetMembers(ids, BlockIds(sorted));
    DraftsForIds(ids, sorted, c);
    if id in ids {
      var k :| 0 <= k < |ids| && ids[k] == id;
      assert Drafts(less, components, c)[k].id == id;
    }
  }

  /** Main result for any plan, feasible or not: each block of the components is reserved once or reported,
      exactly the parts of reserved blocks are placed, each once, and the plan is feasible exactly when every
      block is reserved. */
  lemma PlacedIffReserved(less: Less, page: Page, fallback: Option<Page>, allowFallback: bool, input: PlanInput)
    ensures var plan := Planned(less, page, fallback, allowFallback, input);
      var blocks := plan.layout.blocks;
      && (forall id :: HasBlock(input.components, id) <==>
            Reserved(blocks, id) || HasProblem(plan.layout.conflicts, id))
      && (forall id :: !(Reserved(blocks, id) && HasProblem(plan.layout.conflicts, id)))
      && (forall i, j :: 0 <= i < j < |blocks| ==> blocks[i].blockId != blocks[j].blockId)
      && (forall x: Component :: multiset(Parts(plan.layout.placements))[x] ==
            if Reserved(blocks, x.blockId) then multiset(input.components)[x] else 0)
      && (plan.feasible <==> forall id :: HasBlock(input.components, id) ==> Reserved(blocks, id))
  {
    var plan := Planned(less, page, fallback, allowFallback, input);
    var drafts := Drafts(less, input.components, input.constraints);
    var l := LaidOut(less, plan.page.sheet, drafts, input);
    DraftsExact(less, input.components, input.constraints);
    LaidOutDecided(less, plan.page.sheet, drafts, input);
    LaidOutPlaces(less, plan.page.sheet, drafts, input);
    DraftsPartition(less, input.components, input.constraints);
    RankedParts(less, l);
    forall id ensures Listed(drafts, id) <==> HasBlock(input.components, id) {
      DraftsHaveBlocks(less, input.components, input.constraints, id);
    }
    ReservedListed(l, drafts);
    if l.conflicts == [] {
      LaidOutComplete(less, plan.page.sheet, drafts, input);
    } else {
      assert HasProblem(l.conflicts, l.conflicts[0].blockId);
    }
  }

  lemma ReservedListed(l: Layout, drafts: seq<Draft>)
    requires OfDrafts(l, drafts)
    ensures forall id :: Reserved(l.blocks, id) ==> Listed(drafts, id)
  {
  }

  // ----- the parts of one block -----

  /** a may stand before b in their block's row: mains first, then by parent, then by id. */
  predicate RowBefore(less: Less, a: Component, b: Component) {
    var parentA, parentB := if a.parentId.Some? then a.parentId.value else "",
                            if b.parentId.Some? then b.parentId.value else "";
    (a.main && !b.main)
    || (a.main == b.main &&
         (less(parentA, parentB) || (parentA == parentB && (less(a.id, b.id) || a.id == b.id))))
  }

  lemma RowBeforeExact(less: Less, a: Component, b: Component)
    requires StrictTotalOrder(less)
    ensures MemberOrder(less)(a, b) <==> RowBefore(less, a, b)
  {
    assert ParentKey(a) == ParentKey(b) || less(ParentKey(a), ParentKey(b)) || less(ParentKey(b), ParentKey(a));
    assert a.id == b.id || less(a.id, b.id) || less(b.id, a.id);
  }

  lemma RowBeforeTransitive(less: Less, a: Component, b: Component, c: Component)
    requires StrictTotalOrder(less) && RowBefore(less, a, b) && RowBefore(less, b, c)
    ensures RowBefore(less, a, c)
  {
  }

  lemma RowBeforeTotal(less: Less, a: Component, b: Component)
    requires StrictTotalOrder(less)
    ensures RowBefore(less, a, b) || RowBefore(less, b, a)
  {
  }

  lemma MemberOrderTotal(less: Less)
    requires StrictTotalOrder(less)
    ensures TotalPreorder(MemberOrder(less))
  {
    var le := MemberOrder(less);
    forall a, b ensures le(a, b) || le(b, a) {
      RowBeforeExact(less, a, b);
      RowBeforeExact(less, b, a);
      RowBeforeTotal(less, a, b);
    }
    forall a, b, c | le(a, b) && le(b, c) ensures le(a, c) {
      RowBeforeExact(less, a, b);
      RowBeforeExact(less, b, c);
      RowBeforeExact(less, a, c);
      RowBeforeTransitive(less, a, b, c);
    }
  }

  /** p is not after q in the row: by the order of members, and by where they stand along the flow. */
  predicate InRow(less: Less, c: Constraints, p: Placed, q: Placed) {
    && RowBefore(less, p.component, q.component)
    && (if c.topToBottom then p.bounds.y <= q.bounds.y && p.bounds.x == q.bounds.x
        else p.bounds.x <= q.bounds.x && p.bounds.y == q.bounds.y)
  }

  ghost predicate RowsKept(less: Less, c: Constraints, placed: seq<Placed>) {
    forall i, j :: 0 <= i < j < |placed| && placed[i].component.blockId == placed[j].component.blockId ==>
      InRow(less, c, placed[i], placed[j])
  }

  lemma MembersInOrder(less: Less, block: Draft, i: nat, j: nat)
    requires StrictTotalOrder(less) && i < j < |Members(less, block)|
    ensures RowBefore(less, Members(less, block)[i], Members(less, block)[j])
  {
    MemberOrderTotal(less);
    SortOrdered(MemberOrder(less), block.mains + block.supports);
    assert MemberOrder(less)(Members(less, block)[i], Members(less, block)[j]);
    RowBeforeExact(less, Members(less, block)[i], Members(less, block)[j]);
  }

  lemma StandsAlong(members: seq<Component>, x: int, y: int, c: Constraints, grid: int, order: nat, i: nat, j: nat)
    requires Solid(members, c) && i < j < |members|
    ensures var placed := PlaceFrom(Snapper(grid), members, x, y, c, order);
      && placed[i].component == members[i] && placed[j].component == members[j]
      && (if c.topToBottom
          then placed[i].bounds.y <= placed[j].bounds.y && placed[i].bounds.x == placed[j].bounds.x
          else placed[i].bounds.x <= placed[j].bounds.x && placed[i].bounds.y == placed[j].bounds.y)
  {
    PartAt(Snapper(grid), members, x, y, c, order, i);
    PartAt(Snapper(grid), members, x, y, c, order, j);
    CursorExact(members[..i], x, y, c);
    CursorExact(members[..j], x, y, c);
    CursorOrdered(members, x, y, c, i, j);
    SnapMonotone(Cursor(c, members[..i], x, y), Cursor(c, members[..j], x, y), grid);
  }

  lemma BlockRow(less: Less, block: Draft, bounds: Bounds, c: Constraints, grid: int, order: nat, i: nat, j: nat)
    requires StrictTotalOrder(less) && Solid(Members(less, block), c) && i < j < |Members(less, block)|
    ensures var placed := PlacedMembers(less, block, bounds, c, grid, order); InRow(less, c, placed[i], placed[j])
  {
    MembersInOrder(less, block, i, j);
    StandsAlong(Members(less, block), bounds.x + c.blockPadding, bounds.y + c.blockPadding, c, grid, order, i, j);
  }

  lemma RowsJoined(less: Less, c: Constraints, l: Layout, next: Layout, r: Reservation, placed: seq<Placed>,
                   drafts: seq<Draft>)
    requires OfDrafts(l, drafts) && !Listed(drafts, r.blockId) && Joins(l, next, r, placed)
    requires RowsKept(less, c, l.placements) && RowsKept(less, c, placed)
    ensures RowsKept(less, c, next.placements)
  {
    var m := |l.placements|;
    forall i, j | 0 <= i < m <= j < |next.placements|
      ensures next.placements[i].component.blockId != next.placements[j].component.blockId
    {
      assert next.placements[i] == l.placements[i] && next.placements[j] == placed[j - m];
      assert Listed(drafts, l.placements[i].component.blockId);
    }
    forall i, j | 0 <= i < j < |next.placements| &&
      next.placements[i].component.blockId == next.placements[j].component.blockId
      ensures InRow(less, c, next.placements[i], next.placements[j])
    {
      if j < m {
        assert next.placements[i] == l.placements[i] && next.placements[j] == l.placements[j];
      } else if i >= m {
        assert next.placements[i] == placed[i - m] && next.placements[j] == placed[j - m];
      }
    }
  }

  lemma SolidMembers(less: Less, block: Draft, members: seq<Component>, c: Constraints)
    requires BuiltFrom(block, members, c) && Solid(members, c)
    ensures Solid(Members(less, block), c)
  {
    DraftMeasured(less, block.id, members, c);
    MultisetMembers(Members(less, block), members);
    assert forall k :: 0 <= k < |Members(less, block)| ==> Members(less, block)[k] in members;
  }

  ghost predicate SolidDraft(block: Draft, c: Constraints) {
    exists members :: BuiltFrom(block, members, c) && Solid(members, c)
  }

  ghost predicate SolidDrafts(drafts: seq<Draft>, c: Constraints) {
    forall k :: 0 <= k < |drafts| ==> SolidDraft(drafts[k], c)
  }

  lemma {:induction false} LaidOutRows(less: Less, sheet: Sheet, drafts: seq<Draft>, input: PlanInput)
    requires StrictTotalOrder(less) && DistinctDrafts(drafts) && Built(drafts, input.constraints)
    requires SolidDrafts(drafts, input.constraints)
    ensures RowsKept(less, input.constraints, LaidOut(less, sheet, drafts, input).placements)
  {
    if drafts != [] {
      var n, c := |drafts| - 1, input.constraints;
      var before := LaidOut(less, sheet, drafts[..n], input);
      LastDraft(drafts, c);
      LaidOutRows(less, sheet, drafts[..n], input);
      LaidOutDecided(less, sheet, drafts[..n], input);
      var b := ChosenBounds(less, sheet, drafts[n], input, before);
      AddBlockCases(less, sheet, drafts[n], input, before);
      if b.Some? {
        ReserveRows(less, sheet, drafts[..n], drafts[n], input, before, b.value);
      }
    }
  }

  lemma ReserveRows(less: Less, sheet: Sheet, drafts: seq<Draft>, block: Draft, input: PlanInput, l: Layout, b: Bounds)
    requires StrictTotalOrder(less) && OfDrafts(l, drafts) && !Listed(drafts, block.id)
    requires IsBuilt(block, input.constraints) && SolidDraft(block, input.constraints)
    requires RowsKept(less, input.constraints, l.placements)
    ensures RowsKept(less, input.constraints, Reserve(less, sheet, block, input, l, b).placements)
  {
    var c := input.constraints;
    var placed := PlacedMembers(less, block, b, c, sheet.grid, |l.placements|);
    var members :| BuiltFrom(block, members, c) && Solid(members, c);
    SolidMembers(less, block, members, c);
    forall i: nat, j: nat | i < j < |placed| ensures InRow(less, c, placed[i], placed[j]) {
      BlockRow(less, block, b, c, sheet.grid, |l.placements|, i, j);
    }
    ReserveJoins(less, sheet, block, input, l, b);
    RowsJoined(less, c, l, Reserve(less, sheet, block, input, l, b), Reservation(block.id, b), placed, drafts);
  }

  lemma {:induction false} DraftsForSolid(ids: seq<string>, sorted: seq<Component>, c: Constraints)
    requires Solid(sorted, c)
    ensures SolidDrafts(DraftsFor(ids, sorted, c), c)
  {
    if ids != [] {
      var n := |ids| - 1;
      var members := Filter(WithKey(BlockOf(), ids[n]), sorted);
      DraftsForSolid(ids[..n], sorted, c);
      FilterMembers(WithKey(BlockOf(), ids[n]), sorted);
      assert forall k :: 0 <= k < |members| ==> members[k] in members;
      assert BuiltFrom(DraftOf(ids[n], members, c), members, c) && Solid(members, c);
    }
  }

  /** In any plan of parts without negative sizes, the parts of one block stand in one line, in the order mains
      first, then by parent, then by id. */
  lemma RowsMean(less: Less, page: Page, fallback: Option<Page>, allowFallback: bool, input: PlanInput)
    requires StrictTotalOrder(less) && Solid(input.components, input.constraints)
    ensures RowsKept(less, input.constraints, Planned(less, page, fallback, allowFallback, input).layout.placements)
  {
    var plan, c := Planned(less, page, fallback, allowFallback, input), input.constraints;
    var drafts, sorted := Drafts(less, input.components, c), SortBy(ByComponentId(less), input.components);
    var l := LaidOut(less, plan.page.sheet, drafts, input);
    SortPermutes(ByComponentId(less), input.components);
    MultisetMembers(sorted, input.components);
    assert forall k :: 0 <= k < |sorted| ==> sorted[k] in sorted;
    DraftsForSolid(SortBy(ByName(less), BlockIds(sorted)), sorted, c);
    DraftsExact(less, input.components, c);
    LaidOutRows(less, plan.page.sheet, drafts, input);
    RankedKeeps(l.placements, SortBy(GlobalOrder(less, l.placements), UpTo(|l.placements|)));
    RowsSame(less, c, l.placements, plan.layout.placements);
  }

  lemma RowsSame(less: Less, c: Constraints, a: seq<Placed>, b: seq<Placed>)
    requires RowsKept(less, c, a) && |a| == |b|
    requires forall k :: 0 <= k < |a| ==> b[k].component == a[k].component && b[k].bounds == a[k].bounds
    ensures RowsKept(less, c, b)
  {
    forall i, j | 0 <= i < j < |b| && b[i].component.blockId == b[j].component.blockId
      ensures InRow(less, c, b[i], b[j])
    {
      assert InRow(less, c, a[i], a[j]);
    }
  }

  // ----- where blocks stand -----

  /** The place keeps its distance from the border, the given regions and these blocks. */
  ghost predicate Free(b: Bounds, blocks: seq<Reservation>, sheet: Sheet, input: PlanInput) {
    && FreeStanding(b, sheet, input)
    && forall j :: 0 <= j < |blocks| ==> Spaced(b, blocks[j].bounds, Clearing(input))
  }

  /** One grid step inside the upper left corner, snapped. */
  function FirstPlace(sheet: Sheet, width: int, height: int): Bounds {
    var d := sheet.drawable;
    Bounds(SnapToGrid(d.x + sheet.grid, sheet.grid),
      SnapToGrid(if sheet.yDown then d.y + sheet.grid else d.y + d.height - height - sheet.grid, sheet.grid), width,
      height)
  }

  predicate SearchPoint(x: int, y: int, sheet: Sheet) {
    Aligned(x, Max(1000, sheet.grid)) && Aligned(y, Max(1000, sheet.grid))
  }

  /** (x, y) is no better than (u, v): lower, or in the same line and not to the left. */
  predicate NoBetter(sheet: Sheet, x: int, y: int, u: int, v: int) {
    (if sheet.yDown then v < y else v > y) || (v == y && u <= x)
  }

  /** No free point of the grid is higher, or in the same line and further left. */
  ghost predicate Uppermost(b: Bounds, blocks: seq<Reservation>, sheet: Sheet, input: PlanInput) {
    && SearchPoint(b.x, b.y, sheet)
    && forall x, y | SearchPoint(x, y, sheet) && Free(Bounds(x, y, b.width, b.height), blocks, sheet, input) ::
         NoBetter(sheet, x, y, b.x, b.y)
  }

  /** The block stands at the first place if these blocks leave it free, else at the uppermost free point of the
      grid, the leftmost of its line. */
  ghost predicate StandsBest(b: Bounds, blocks: seq<Reservation>, sheet: Sheet, input: PlanInput) {
    && Free(b, blocks, sheet, input)
    && if Free(FirstPlace(sheet, b.width, b.height), blocks, sheet, input)
       then b == FirstPlace(sheet, b.width, b.height)
       else Uppermost(b, blocks, sheet, input)
  }

  lemma FreeIsClear(sheet: Sheet, block: Draft, input: PlanInput, blocks: seq<Reservation>, b: Bounds)
    requires Free(b, blocks, sheet, input)
    ensures Clear(Request(sheet, block, input, input.existing + BlockRegions(blocks)), b)
  {
    var request := Request(sheet, block, input, input.existing + BlockRegions(blocks));
    forall r | r in UnsortedRegions(request) ensures Sufficient(RectangleClearance(b, r.bounds), Minimum(request)) {
      if r in BlockRegions(blocks) {
        var k :| 0 <= k < |blocks| && BlockRegions(blocks)[k] == r;
        assert Spaced(b, blocks[k].bounds, Clearing(input));
      } else {
        assert r in FixedRegions(sheet, input);
      }
    }
  }

  lemma ClearIsFree(sheet: Sheet, block: Draft, input: PlanInput, blocks: seq<Reservation>, b: Bounds)
    ensures Clear(Request(sheet, block, input, input.existing + BlockRegions(blocks)), b) <==>
      Free(b, blocks, sheet, input)
  {
    if Clear(Request(sheet, block, input, input.existing + BlockRegions(blocks)), b) {
      ClearMeans(sheet, block, input, blocks, b);
    }
    if Free(b, blocks, sheet, input) {
      FreeIsClear(sheet, block, input, blocks, b);
    }
  }

  lemma PreferredIsUpperLeft(sheet: Sheet, block: Draft, input: PlanInput, occupancy: seq<Region>, p: Position,
                             q: Position)
    ensures var request := Request(sheet, block, input, occupancy);
      && At(request, p).bounds == Bounds(p.x, p.y, block.width, block.height)
      && (Placement.OnGrid(request, p) <==> SearchPoint(p.x, p.y, sheet))
      && (Before(request, p, q) ==> NoBetter(sheet, q.x, q.y, p.x, p.y))
  {
  }

  lemma BestFound(less: Less, sheet: Sheet, block: Draft, input: PlanInput, occupancy: seq<Region>, q: Position)
    requires var request := Request(sheet, block, input, occupancy);
      && !Checked(less, request, request.candidate).accepted && |PlacementResult(less, request).alternatives| > 0
      && Placement.Feasible(request, q)
    ensures var b := PlacementResult(less, Request(sheet, block, input, occupancy)).alternatives[0].bounds;
      NoBetter(sheet, q.x, q.y, b.x, b.y)
  {
    var request := Request(sheet, block, input, occupancy);
    var found := AlternativesExact(less, request);
    assert PlacementResult(less, request).alternatives[0] == At(request, found[0]);
    assert found[0] in found;
    PreferredIsUpperLeft(sheet, block, input, occupancy, found[0], q);
    assert Placement.Accounted(Precedes(request), found, 1, q);
    assert q in found ==> q == found[0];
  }

  /** A candidate that is refused gives way to the uppermost free point. */
  lemma SearchStandsBest(less: Less, sheet: Sheet, block: Draft, input: PlanInput, blocks: seq<Reservation>, b: Bounds)
    requires var request := Request(sheet, block, input, input.existing + BlockRegions(blocks));
      && !Checked(less, request, request.candidate).accepted && |PlacementResult(less, request).alternatives| > 0
      && b == PlacementResult(less, request).alternatives[0].bounds
    ensures b.width == block.width && b.height == block.height && Uppermost(b, blocks, sheet, input)
  {
    var occupancy := input.existing + BlockRegions(blocks);
    var request := Request(sheet, block, input, occupancy);
    FirstAlternative(less, request);
    var o := PlacementResult(less, request).alternatives[0].origin;
    PreferredIsUpperLeft(sheet, block, input, occupancy, o, o);
    forall x, y | SearchPoint(x, y, sheet) && Free(Bounds(x, y, b.width, b.height), blocks, sheet, input)
      ensures NoBetter(sheet, x, y, b.x, b.y)
    {
      PreferredIsUpperLeft(sheet, block, input, occupancy, Position(x, y), o);
      FreeIsClear(sheet, block, input, blocks, Bounds(x, y, b.width, b.height));
      BestFound(less, sheet, block, input, occupancy, Position(x, y));
    }
  }

  lemma FirstPlaceIsCandidate(sheet: Sheet, block: Draft)
    ensures InitialCandidate(sheet, block).bounds == FirstPlace(sheet, block.width, block.height)
  {
  }

  lemma ChosenStandsBest(less: Less, sheet: Sheet, block: Draft, input: PlanInput, l: Layout, b: Bounds)
    requires ChosenBounds(less, sheet, block, input, l) == Some(b)
    requires l.occupancy == input.existing + BlockRegions(l.blocks)
    ensures StandsBest(b, l.blocks, sheet, input)
  {
    var request := Request(sheet, block, input, l.occupancy);
    ChosenClear(less, sheet, block, input, l.occupancy);
    ClearIsFree(sheet, block, input, l.blocks, b);
    FirstPlaceIsCandidate(sheet, block);
    ClearIsFree(sheet, block, input, l.blocks, request.candidate.bounds);
    AcceptedIff(less, request, request.candidate);
    if !Checked(less, request, request.candidate).accepted {
      SearchStandsBest(less, sheet, block, input, l.blocks, b);
    }
  }

  /** Each block stands best given those reserved before it. */
  ghost predicate AllStandBest(blocks: seq<Reservation>, sheet: Sheet, input: PlanInput) {
    forall k :: 0 <= k < |blocks| ==> StandsBest(blocks[k].bounds, blocks[..k], sheet, input)
  }

  lemma OneMoreBest(blocks: seq<Reservation>, r: Reservation, sheet: Sheet, input: PlanInput)
    requires AllStandBest(blocks, sheet, input) && StandsBest(r.bounds, blocks, sheet, input)
    ensures AllStandBest(blocks + [r], sheet, input)
  {
    var all := blocks + [r];
    forall k | 0 <= k < |all| ensures StandsBest(all[k].bounds, all[..k], sheet, input) {
      assert all[..k] == blocks[..k];
      assert blocks[..|blocks|] == blocks;
    }
  }

  lemma {:induction false} LaidOutBest(less: Less, sheet: Sheet, drafts: seq<Draft>, input: PlanInput)
    ensures AllStandBest(LaidOut(less, sheet, drafts, input).blocks, sheet, input)
  {
    if drafts != [] {
      var n := |drafts| - 1;
      var before := LaidOut(less, sheet, drafts[..n], input);
      LaidOutBest(less, sheet, drafts[..n], input);
      LaidOutBlocksSafe(less, sheet, drafts[..n], input);
      var b := ChosenBounds(less, sheet, drafts[n], input, before);
      AddBlockCases(less, sheet, drafts[n], input, before);
      if b.Some? {
        ChosenStandsBest(less, sheet, drafts[n], input, before, b.value);
        OneMoreBest(before.blocks, Reservation(drafts[n].id, b.value), sheet, input);
      }
    }
  }

  /** Where the blocks of any plan stand: each at the first place that the border, the given regions and the
      blocks before it leave free. */
  lemma BlocksStandBest(less: Less, page: Page, fallback: Option<Page>, allowFallback: bool, input: PlanInput)
    ensures var plan := Planned(less, page, fallback, allowFallback, input);
      AllStandBest(plan.layout.blocks, plan.page.sheet, input)
  {
    var plan := Planned(less, page, fallback, allowFallback, input);
    LaidOutBest(less, plan.page.sheet, Drafts(less, input.components, input.constraints), input);
  }

  // ----- the fallback page -----

  predicate FallbackFits(page: Page, fallback: Option<Page>, allowFallback: bool) {
    allowFallback && page.size == A4 && fallback.Some? && fallback.value.size == A3
  }

  /** The plan is the one for the page, unless that is not feasible on A4, the fallback is allowed, is A3, and is
      feasible. */
  lemma FallbackMeans(less: Less, page: Page, fallback: Option<Page>, allowFallback: bool, input: PlanInput)
    ensures var plan := Planned(less, page, fallback, allowFallback, input);
      var alone := Planned(less, page, None, false, input);
      && alone.page == page
      && (plan == alone || (fallback.Some? && plan == Planned(less, fallback.value, None, false, input)))
      && (plan.feasible <==> (alone.feasible || (FallbackFits(page, fallback, allowFallback)
                                && Planned(less, fallback.value, None, false, input).feasible)))
      && (!plan.feasible || alone.feasible ==> plan == alone)
  {
  }
}
