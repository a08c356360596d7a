/** What a feasible plan guarantees: every part once, inside its block, clear of
    everything else, main parts first. */
module PlannerTheorems {
  import opened Basics
  import opened SchematicGeometry
  import opened Placement
  import opened PlannerModel

  // ----- every part once -----

  lemma FilterSplits(members: seq<Component>)
    ensures multiset(Filter(IsMain(), members) + Filter(IsSupport(), members)) == multiset(members)
  {
    forall x ensures multiset(Filter(IsMain(), members) + Filter(IsSupport(), members))[x] == multiset(members)[x] {
      FilterCounts(IsMain(), members, x);
      FilterCounts(IsSupport(), members, x);
    }
  }

  function AllMembers(drafts: seq<Draft>): seq<Component> {
    if drafts == [] then []
    else AllMembers(drafts[..|drafts| - 1]) + (drafts[|drafts| - 1].mains + drafts[|drafts| - 1].supports)
  }

  lemma {:induction false} GroupCounts(ids: seq<string>, sorted: seq<Component>, c: Constraints, x: Component)
    requires Distinct(ids)
    ensures multiset(AllMembers(DraftsFor(ids, sorted, c)))[x] == if x.blockId in ids then multiset(sorted)[x] else 0
  {
    if ids != [] {
      var n := |ids| - 1;
      var members := Filter(WithKey(BlockOf(), ids[n]), sorted);
      GroupCounts(ids[..n], sorted, c, x);
      FilterSplits(members);
      FilterCounts(WithKey(BlockOf(), ids[n]), sorted, x);
      var before := DraftsFor(ids[..n], sorted, c);
      assert DraftsFor(ids, sorted, c)[..|before|] == before;
      assert x.blockId in ids <==> x.blockId in ids[..n] || x.blockId == ids[n];
    }
  }

  lemma BlockIdsExact(s: seq<Component>)
    ensures Distinct(BlockIds(s))
    ensures forall c :: c in s ==> c.blockId in BlockIds(s)
  {
    FirstSeenExact(BlockOf(), s);
    forall c | c in s ensures c.blockId in BlockIds(s) {
      var i :| 0 <= i < |s| && s[i] == c;
      assert BlockOf()(s[i]) == c.blockId;
    }
  }

  /** The drafts hold the components, each exactly once. */
  lemma DraftsPartition(less: Less, components: seq<Component>, c: Constraints)
    ensures multiset(AllMembers(Drafts(less, components, c))) == multiset(components)
  {
    var sorted := SortBy(ByComponentId(less), components);
    var ids := SortBy(ByName(less), BlockIds(sorted));
    SortPermutes(ByComponentId(less), components);
    BlockIdsExact(sorted);
    SortPermutes(ByName(less), BlockIds(sorted));
    MultisetMembers(ids, BlockIds(sorted));
    DistinctMultiset(BlockIds(sorted), ids);
    forall x ensures multiset(AllMembers(Drafts(less, components, c)))[x] == multiset(components)[x] {
      GroupCounts(ids, sorted, c, x);
      assert x in sorted <==> x in multiset(sorted);
    }
  }

  lemma PartsConcat(a: seq<Placed>, b: seq<Placed>)
    ensures Parts(a + b) == Parts(a) + Parts(b)
  {
  }

  lemma {:induction false} PlaceFromParts(snap: int -> int, members: seq<Component>, x: int, y: int, c: Constraints,
                                          order: nat)
    ensures Parts(PlaceFrom(snap, members, x, y, c, order)) == members
  {
    if members != [] {
      PlaceFromParts(snap, members[..|members| - 1], x, y, c, order);
    }
  }

  lemma {:induction false} SummaryNotEmpty(conflicts: seq<Conflict>, blockId: string)
    ensures ConflictSummary(conflicts, blockId) != []
  {
    if conflicts != [] {
      CodesNotEmpty(conflicts);
    }
  }

  lemma CodesNotEmpty(conflicts: seq<Conflict>)
    requires conflicts != []
    ensures DistinctCodes(conflicts) != []
  {
    FirstSeenExact(CodeOf(), conflicts);
    assert CodeOf()(conflicts[0]) in DistinctCodes(conflicts);
  }

  /** A block that leaves no conflict has been reserved, with all its members. */
  lemma AddBlockComplete(less: Less, sheet: Sheet, block: Draft, input: PlanInput, l: Layout)
    requires AddBlock(less, sheet, block, input, l).conflicts == []
    ensures var next := AddBlock(less, sheet, block, input, l);
      && l.conflicts == [] && |next.blocks| == |l.blocks| + 1
      && multiset(Parts(next.placements)) == multiset(Parts(l.placements)) + multiset(block.mains + block.supports)
  {
    var request := Request(sheet, block, input, l.occupancy);
    var result := PlacementResult(less, request);
    SummaryNotEmpty(result.check.conflicts, block.id);
    ReservedParts(less, sheet, block, input, l, Chosen(request, result).value.bounds);
  }

  lemma {:induction false} LaidOutComplete(less: Less, sheet: Sheet, drafts: seq<Draft>, input: PlanInput)
    requires LaidOut(less, sheet, drafts, input).conflicts == []
    ensures multiset(Parts(LaidOut(less, sheet, drafts, input).placements)) == multiset(AllMembers(drafts))
    ensures |LaidOut(less, sheet, drafts, input).blocks| == |drafts|
  {
    if drafts != [] {
      var n := |drafts| - 1;
      AddBlockComplete(less, sheet, drafts[n], input, LaidOut(less, sheet, drafts[..n], input));
      LaidOutComplete(less, sheet, drafts[..n], input);
    }
  }

  lemma MembersPermute(less: Less, block: Draft)
    ensures multiset(Members(less, block)) == multiset(block.mains + block.supports)
  {
    SortPermutes(MemberOrder(less), block.mains + block.supports);
  }

  lemma PlacedParts(less: Less, block: Draft, bounds: Bounds, c: Constraints, grid: int, order: nat)
    ensures Parts(PlacedMembers(less, block, bounds, c, grid, order)) == Members(less, block)
    ensures multiset(Parts(PlacedMembers(less, block, bounds, c, grid, order))) ==
      multiset(block.mains + block.supports)
  {
    MembersPermute(less, block);
    PlaceFromParts(Snapper(grid), Members(less, block), bounds.x + c.blockPadding, bounds.y + c.blockPadding, c, order);
  }

  lemma ReservedParts(less: Less, sheet: Sheet, block: Draft, input: PlanInput, l: Layout, bounds: Bounds)
    ensures multiset(Parts(Reserve(less, sheet, block, input, l, bounds).placements))
         == multiset(Parts(l.placements)) + multiset(block.mains + block.supports)
  {
    var placed := PlacedMembers(less, block, bounds, input.constraints, sheet.grid, |l.placements|);
    PartsConcat(l.placements, placed);
    PlacedParts(less, block, bounds, input.constraints, sheet.grid, |l.placements|);
  }

  // ----- the global order -----

  /** Ranking changes nothing but the ranks. */
  lemma {:induction false} RankedKeeps(placements: seq<Placed>, order: seq<nat>)
    ensures forall k :: 0 <= k < |placements| ==>
      && Ranked(placements, order)[k].component == placements[k].component
      && Ranked(placements, order)[k].rotation == placements[k].rotation
      && Ranked(placements, order)[k].bounds == placements[k].bounds
  {
    if order != [] {
      RankedKeeps(placements, order[..|order| - 1]);
    }
  }

  lemma {:induction false} RankedRanks(placements: seq<Placed>, order: seq<nat>)
    requires Distinct(order) && forall k :: 0 <= k < |order| ==> order[k] < |placements|
    ensures forall k :: 0 <= k < |order| ==> Ranked(placements, order)[order[k]].placementOrder == k
  {
    if order != [] {
      RankedRanks(placements, order[..|order| - 1]);
    }
  }

  lemma UpToDistinct(n: nat)
    ensures Distinct(UpTo(n))
    ensures forall i: nat :: i in UpTo(n) <==> i < n
  {
    var s := UpTo(n);
    forall i, j | 0 <= i < j < |s| ensures s[i] != s[j] {
      assert s[i] == i && s[j] == j;
    }
    forall i: nat ensures i in s <==> i < n {
      if i < n {
        assert s[i] == i;
      }
      if i in s {
        var k :| 0 <= k < |s| && s[k] == i;
        assert s[k] == k;
      }
    }
  }

  lemma GlobalOrderTotal(less: Less, placements: seq<Placed>)
    requires StrictTotalOrder(less)
    ensures TotalPreorder(GlobalOrder(less, placements))
  {
    var le := GlobalOrder(less, placements);
    forall i: nat, j: nat ensures le(i, j) || le(j, i) {
      if i < |placements| && j < |placements| {
        GlobalLeTotal(less, placements[i].component, placements[j].component);
      }
    }
    forall i: nat, j: nat, k: nat | le(i, j) && le(j, k) ensures le(i, k) {
      if i < |placements| && j < |placements| && k < |placements| {
        GlobalLeTransitive(less, placements[i].component, placements[j].component, placements[k].component);
      }
    }
  }

  lemma GlobalLeTotal(less: Less, a: Component, b: Component)
    requires StrictTotalOrder(less)
    ensures GlobalLe(less, a, b) || GlobalLe(less, b, a)
  {
  }

  lemma GlobalLeTransitive(less: Less, a: Component, b: Component, c: Component)
    requires StrictTotalOrder(less) && GlobalLe(less, a, b) && GlobalLe(less, b, c)
    ensures GlobalLe(less, a, c)
  {
  }

  ghost predicate MainsRankFirst(placements: seq<Placed>) {
    forall i, j :: 0 <= i < |placements| && 0 <= j < |placements| ==>
      placements[i].component.main && !placements[j].component.main ==>
      placements[i].placementOrder < placements[j].placementOrder
  }

  lemma GlobalOrderExact(less: Less, placements: seq<Placed>)
    requires StrictTotalOrder(less)
    ensures var order := SortBy(GlobalOrder(less, placements), UpTo(|placements|));
      && Distinct(order) && (forall i: nat :: i in order <==> i < |placements|)
      && Ordered(GlobalOrder(less, placements), order)
  {
    var le, ids := GlobalOrder(less, placements), UpTo(|placements|);
    UpToDistinct(|placements|);
    SortPermutes(le, ids);
    MultisetMembers(SortBy(le, ids), ids);
    DistinctMultiset(ids, SortBy(le, ids));
    GlobalOrderTotal(less, placements);
    SortOrdered(le, ids);
  }

  lemma RanksMainsFirst(less: Less, placements: seq<Placed>, order: seq<nat>)
    requires Distinct(order) && (forall i: nat :: i in order <==> i < |placements|)
    requires Ordered(GlobalOrder(less, placements), order)
    ensures MainsRankFirst(Ranked(placements, order))
  {
    var ranked := Ranked(placements, order);
    RankedKeeps(placements, order);
    forall i, j | 0 <= i < |ranked| && 0 <= j < |ranked| && ranked[i].component.main && !ranked[j].component.main
      ensures ranked[i].placementOrder < ranked[j].placementOrder
    {
      var a := RankOf(placements, order, i);
      var b := RankOf(placements, order, j);
      SupportNotBefore(less, placements, order, a, b);
    }
  }

  lemma RankOf(placements: seq<Placed>, order: seq<nat>, i: nat) returns (a: nat)
    requires Distinct(order) && (forall i: nat :: i in order <==> i < |placements|) && i < |placements|
    ensures a < |order| && order[a] == i && Ranked(placements, order)[i].placementOrder == a
  {
    assert forall k :: 0 <= k < |order| ==> order[k] in order;
    RankedRanks(placements, order);
    assert i in order;
    a :| 0 <= a < |order| && order[a] == i;
  }

  lemma SupportNotBefore(less: Less, placements: seq<Placed>, order: seq<nat>, a: nat, b: nat)
    requires Ordered(GlobalOrder(less, placements), order) && a < |order| && b < |order|
    requires order[a] < |placements| && order[b] < |placements|
    requires placements[order[a]].component.main && !placements[order[b]].component.main
    ensures a < b
  {
    assert !GlobalOrder(less, placements)(order[b], order[a]);
  }

  ghost predicate MainsFirst(order: seq<Component>) {
    forall i, j :: 0 <= i < j < |order| && order[j].main ==> order[i].main
  }

  lemma SortedByRank(placements: seq<Placed>)
    requires MainsRankFirst(placements)
    ensures MainsFirst(Parts(SortBy(ByRank(), placements)))
    ensures multiset(Parts(SortBy(ByRank(), placements))) == multiset(Parts(placements))
  {
    var sorted := SortBy(ByRank(), placements);
    SortPermutes(ByRank(), placements);
    MultisetMembers(sorted, placements);
    SortOrdered(ByRank(), placements);
    PartsPermute(placements, sorted);
    forall i, j | 0 <= i < j < |sorted| && sorted[j].component.main ensures sorted[i].component.main {
      assert sorted[i] in placements && sorted[j] in placements;
      var a :| 0 <= a < |placements| && placements[a] == sorted[i];
      var b :| 0 <= b < |placements| && placements[b] == sorted[j];
    }
  }

  lemma WithoutAt<T>(b: seq<T>, k: nat)
    requires k < |b|
    ensures multiset(b) == multiset(b[..k] + b[k + 1..]) + multiset([b[k]])
  {
    assert b == b[..k] + ([b[k]] + b[k + 1..]);
  }

  lemma RemoveOne<T>(a: seq<T>, b: seq<T>, k: nat)
    requires a != [] && multiset(a) == multiset(b) && k < |b| && b[k] == a[|a| - 1]
    ensures multiset(a[..|a| - 1]) == multiset(b[..k] + b[k + 1..])
  {
    WithoutAt(a, |a| - 1);
    WithoutAt(b, k);
    assert a[..|a| - 1] + a[|a|..] == a[..|a| - 1];
    Cancelled(multiset(a[..|a| - 1]), multiset(b[..k] + b[k + 1..]), multiset([b[k]]));
  }

  lemma Cancelled<T>(a: multiset<T>, b: multiset<T>, c: multiset<T>)
    requires a + c == b + c
    ensures a == b
  {
    assert a == (a + c) - c && b == (b + c) - c;
  }

  lemma PartsWithout(b: seq<Placed>, k: nat)
    requires k < |b|
    ensures multiset(Parts(b)) == multiset(Parts(b[..k] + b[k + 1..])) + multiset([b[k].component])
  {
    assert b == b[..k] + ([b[k]] + b[k + 1..]);
    PartsConcat(b[..k], [b[k]] + b[k + 1..]);
    PartsConcat([b[k]], b[k + 1..]);
    PartsConcat(b[..k], b[k + 1..]);
    assert Parts([b[k]]) == [b[k].component];
  }

  lemma {:induction false} PartsPermute(a: seq<Placed>, b: seq<Placed>)
    requires multiset(a) == multiset(b)
    ensures multiset(Parts(a)) == multiset(Parts(b))
  {
    if a == [] {
      assert |multiset(b)| == 0;
    } else {
      assert a[|a| - 1] in multiset(b);
      var k :| 0 <= k < |b| && b[k] == a[|a| - 1];
      RemoveOne(a, b, k);
      PartsPermute(a[..|a| - 1], b[..k] + b[k + 1..]);
      PartsWithout(b, k);
      PartsWithout(a, |a| - 1);
      assert a[..|a| - 1] + a[|a|..] == a[..|a| - 1];
    }
  }

  // ----- inside the block -----

  /** No point lies inside both bounds. */
  predicate Disjoint(a: Bounds, b: Bounds) {
    Max(a.x, b.x) >= Min(Right(a), Right(b)) || Max(a.y, b.y) >= Min(Bottom(a), Bottom(b))
  }

  /** Snapping leaves the value where it is. */
  predicate OnSheetGrid(v: int, grid: int) {
    grid <= 0 || Aligned(v, grid)
  }

  lemma OnGridAdd(a: int, b: int, grid: int)
    requires OnSheetGrid(a, grid) && OnSheetGrid(b, grid)
    ensures OnSheetGrid(a + b, grid)
  {
    if grid > 0 {
      AlignedAdd(a, b, grid);
    }
  }

  /** No negative size or spacing. */
  predicate Solid(s: seq<Component>, c: Constraints) {
    c.componentSpacing >= 0 && forall k :: 0 <= k < |s| ==> s[k].width >= 0 && s[k].height >= 0
  }

  predicate Extended(s: seq<Component>) {
    forall k :: 0 <= k < |s| ==> s[k].width > 0 && s[k].height > 0
  }

  /** Sizes, padding and spacing are multiples of the grid. */
  predicate Gridded(s: seq<Component>, c: Constraints, grid: int) {
    && (forall k :: 0 <= k < |s| ==> OnSheetGrid(s[k].width, grid) && OnSheetGrid(s[k].height, grid))
    && OnSheetGrid(c.blockPadding, grid) && OnSheetGrid(c.componentSpacing, grid)
  }

  /** Every part keeps off its successor in a row. */
  predicate AllClear(s: seq<Component>, c: Constraints, grid: int) {
    forall k :: 0 <= k < |s| ==> KeepsClear(Along(c.topToBottom, s[k]), c.componentSpacing, grid)
  }

  lemma GriddedClear(s: seq<Component>, c: Constraints, grid: int)
    requires Solid(s, c) && Gridded(s, c, grid)
    ensures AllClear(s, c, grid)
  {
    forall k | 0 <= k < |s| ensures KeepsClear(Along(c.topToBottom, s[k]), c.componentSpacing, grid) {
      var size := Along(c.topToBottom, s[k]);
      OnGridAdd(size, c.componentSpacing, grid);
      if grid > 0 {
        FloorMultiple(size + c.componentSpacing, grid);
        if size + c.componentSpacing > (size + c.componentSpacing) / grid * grid {
          AlignedGap((size + c.componentSpacing) / grid * grid, size + c.componentSpacing, grid);
        }
      }
    }
  }

  function Low(vertical: bool, b: Bounds): int { if vertical then b.y else b.x }

  function High(vertical: bool, b: Bounds): int { if vertical then Bottom(b) else Right(b) }

  function AlongStart(c: Constraints, x: int, y: int): int { if c.topToBottom then y else x }

  function AcrossStart(c: Constraints, x: int, y: int): int { if c.topToBottom then x else y }

  function Cursor(c: Constraints, members: seq<Component>, x: int, y: int): int {
    if c.topToBottom then CursorY(c, members, y) else CursorX(c, members, x)
  }

  /** The cursor moves along the flow only, by the sizes and one spacing each. */
  lemma {:induction false} CursorExact(members: seq<Component>, x: int, y: int, c: Constraints)
    ensures c.topToBottom ==> CursorX(c, members, x) == x
    ensures !c.topToBottom ==> CursorY(c, members, y) == y
    ensures Cursor(c, members, x, y) ==
      AlongStart(c, x, y) + SumAlong(c.topToBottom, members) + |members| * c.componentSpacing
  {
    if members != [] {
      var n := |members| - 1;
      CursorExact(members[..n], x, y, c);
      assert (n + 1) * c.componentSpacing == n * c.componentSpacing + c.componentSpacing;
    }
  }

  lemma {:induction false} CursorAligned(members: seq<Component>, x: int, y: int, c: Constraints, grid: int)
    requires Gridded(members, c, grid) && OnSheetGrid(x, grid) && OnSheetGrid(y, grid)
    ensures OnSheetGrid(Cursor(c, members, x, y), grid)
  {
    if members != [] {
      var n := |members| - 1;
      var before := Cursor(c, members[..n], x, y);
      CursorAligned(members[..n], x, y, c, grid);
      OnGridAdd(before, Along(c.topToBottom, members[n]), grid);
      OnGridAdd(before + Along(c.topToBottom, members[n]), c.componentSpacing, grid);
    }
  }

  lemma CursorNext(members: seq<Component>, x: int, y: int, c: Constraints, k: nat)
    requires k < |members|
    ensures Cursor(c, members[..k + 1], x, y) ==
      Cursor(c, members[..k], x, y) + Along(c.topToBottom, members[k]) + c.componentSpacing
  {
    assert members[..k + 1][..k] == members[..k];
  }

  lemma {:induction false} CursorOrdered(members: seq<Component>, x: int, y: int, c: Constraints, j: nat, k: nat)
    requires Solid(members, c) && j <= k <= |members|
    ensures Cursor(c, members[..j], x, y) <= Cursor(c, members[..k], x, y)
    decreases k - j
  {
    if j < k {
      CursorNext(members, x, y, c, j);
      CursorOrdered(members, x, y, c, j + 1, k);
    }
  }

  // ----- where the parts of a row stand -----

  lemma {:induction false} PartAt(snap: int -> int, members: seq<Component>, x: int, y: int, c: Constraints, order: nat,
                                  k: nat)
    requires k < |members|
    ensures PlaceFrom(snap, members, x, y, c, order)[k]
         == PlaceOne(snap, members[k], CursorX(c, members[..k], x), CursorY(c, members[..k], y), order + k)
  {
    var n := |members| - 1;
    LastAt(snap, members, x, y, c, order);
    if k < n {
      PartAt(snap, members[..n], x, y, c, order, k);
      assert members[..n][..k] == members[..k] && members[..n][k] == members[k];
    }
  }

  lemma LastAt(snap: int -> int, members: seq<Component>, x: int, y: int, c: Constraints, order: nat)
    requires members != []
    ensures var n, placed := |members| - 1, PlaceFrom(snap, members, x, y, c, order);
      && placed[n] == PlaceOne(snap, members[n], CursorX(c, members[..n], x), CursorY(c, members[..n], y), order + n)
      && forall k :: 0 <= k < n ==> placed[k] == PlaceFrom(snap, members[..n], x, y, c, order)[k]
  {
  }

  predicate StandsAt(v: bool, b: Bounds, low: int, along: int, base: int, across: int) {
    Low(v, b) == low && High(v, b) == low + along && Low(!v, b) == base && High(!v, b) == base + across
  }

  lemma PartStands(members: seq<Component>, x: int, y: int, c: Constraints, grid: int, order: nat, k: nat)
    requires k < |members|
    ensures var v := c.topToBottom;
      StandsAt(v, PlaceFrom(Snapper(grid), members, x, y, c, order)[k].bounds,
        SnapToGrid(Cursor(c, members[..k], x, y), grid),
        Along(v, members[k]), SnapToGrid(AcrossStart(c, x, y), grid), Across(v, members[k]))
  {
    PartAt(Snapper(grid), members, x, y, c, order, k);
    CursorExact(members[..k], x, y, c);
  }

  /** A part that keeps clear ends before any later part begins. */
  lemma PartBefore(members: seq<Component>, x: int, y: int, c: Constraints, grid: int, i: nat, j: nat)
    requires Solid(members, c) && i < j < |members| &&
      KeepsClear(Along(c.topToBottom, members[i]), c.componentSpacing, grid)
    ensures SnapToGrid(Cursor(c, members[..i], x, y), grid) + Along(c.topToBottom, members[i])
         <= SnapToGrid(Cursor(c, members[..j], x, y), grid)
  {
    CursorNext(members, x, y, c, i);
    CursorOrdered(members, x, y, c, i + 1, j);
    SnapMonotone(Cursor(c, members[..i + 1], x, y), Cursor(c, members[..j], x, y), grid);
    if grid > 0 {
      KeepsClearIff(Along(c.topToBottom, members[i]), c.componentSpacing, grid);
    }
  }

  ghost predicate PairwiseDisjoint(placed: seq<Placed>) {
    forall i, j :: 0 <= i < j < |placed| ==> Disjoint(placed[i].bounds, placed[j].bounds)
  }

  lemma RowApart(members: seq<Component>, x: int, y: int, c: Constraints, grid: int, order: nat)
    requires Solid(members, c) && AllClear(members[..Max(0, |members| - 1)], c, grid)
    ensures PairwiseDisjoint(PlaceFrom(Snapper(grid), members, x, y, c, order))
  {
    var placed := PlaceFrom(Snapper(grid), members, x, y, c, order);
    forall i, j | 0 <= i < j < |placed| ensures Disjoint(placed[i].bounds, placed[j].bounds) {
      PartStands(members, x, y, c, grid, order, i);
      PartStands(members, x, y, c, grid, order, j);
      assert members[..|members| - 1][i] == members[i];
      PartBefore(members, x, y, c, grid, i, j);
    }
  }

  lemma StartFor(members: seq<Component>, c: Constraints, k: nat, cursor: int) returns (x: int, y: int)
    requires k <= |members|
    ensures Cursor(c, members[..k], x, y) == cursor
  {
    CursorExact(members[..k], 0, 0, c);
    x, y := cursor - Cursor(c, members[..k], 0, 0), cursor - Cursor(c, members[..k], 0, 0);
    CursorExact(members[..k], x, y, c);
  }

  lemma InLineOverlap(v: bool, a: Bounds, b: Bounds, low: int, along: int, next: int, alongNext: int,
                      base: int, across: int, acrossNext: int)
    requires StandsAt(v, a, low, along, base, across) && StandsAt(v, b, next, alongNext, base, acrossNext)
    requires alongNext > 0 && across > 0 && acrossNext > 0 && low <= next < low + along
    ensures !Disjoint(a, b)
  {
  }

  lemma WorstPair(size: int, spacing: int, grid: int)
    requires size > 0 && spacing >= 0 && !KeepsClear(size, spacing, grid)
    ensures SnapToGrid(WorstStart(grid), grid) == 0
    ensures 0 <= SnapToGrid(WorstStart(grid) + (size + spacing), grid) < size
  {
    WorstSnap(size + spacing, grid);
    SnapMonotone(WorstStart(grid), WorstStart(grid) + (size + spacing), grid);
  }

  /** A part that does not keep clear overlaps its successor for some start of the row. */
  lemma Overlaps(members: seq<Component>, c: Constraints, grid: int, k: nat) returns (x: int, y: int)
    requires c.componentSpacing >= 0 && k + 1 < |members| &&
      !KeepsClear(Along(c.topToBottom, members[k]), c.componentSpacing, grid)
    requires Extended(members)
    ensures !PairwiseDisjoint(PlaceFrom(Snapper(grid), members, x, y, c, 0))
  {
    x, y := StartFor(members, c, k, WorstStart(grid));
    CursorNext(members, x, y, c, k);
    WorstPair(Along(c.topToBottom, members[k]), c.componentSpacing, grid);
    assert Cursor(c, members[..k + 1], x, y)
        == WorstStart(grid) + (Along(c.topToBottom, members[k]) + c.componentSpacing);
    PartStands(members, x, y, c, grid, 0, k);
    PartStands(members, x, y, c, grid, 0, k + 1);
    var placed, v := PlaceFrom(Snapper(grid), members, x, y, c, 0), c.topToBottom;
    InLineOverlap(v, placed[k].bounds, placed[k + 1].bounds, 0, Along(v, members[k]),
      SnapToGrid(Cursor(c, members[..k + 1], x, y), grid), Along(v, members[k + 1]),
      SnapToGrid(AcrossStart(c, x, y), grid), Across(v, members[k]), Across(v, members[k + 1]));
  }

  ghost predicate AlwaysApart(members: seq<Component>, c: Constraints, grid: int) {
    forall x, y :: PairwiseDisjoint(PlaceFrom(Snapper(grid), members, x, y, c, 0))
  }

  /** The parts of a row keep off each other wherever the row starts, exactly when every
      part but the last keeps clear of its successor. */
  lemma RowApartIff(members: seq<Component>, c: Constraints, grid: int)
    requires Extended(members) && c.componentSpacing >= 0
    ensures AlwaysApart(members, c, grid) <==> AllClear(members[..Max(0, |members| - 1)], c, grid)
  {
    if AllClear(members[..Max(0, |members| - 1)], c, grid) {
      forall x, y ensures PairwiseDisjoint(PlaceFrom(Snapper(grid), members, x, y, c, 0)) {
        RowApart(members, x, y, c, grid, 0);
      }
    } else {
      var k: nat :| k < |members| - 1 && !KeepsClear(Along(c.topToBottom, members[k]), c.componentSpacing, grid);
      var x, y := Overlaps(members, c, grid, k);
    }
  }

  // ----- sizes do not depend on the order of members -----

  lemma {:induction false} SumAppend(v: bool, a: seq<Component>, b: seq<Component>)
    ensures SumAlong(v, a + b) == SumAlong(v, a) + SumAlong(v, b)
    ensures MaxAcross(v, a + b) == Max(MaxAcross(v, a), MaxAcross(v, b))
  {
    if b == [] {
      assert a + b == a;
    } else {
      SumAppend(v, a, b[..|b| - 1]);
      assert (a + b)[..|a + b| - 1] == a + b[..|b| - 1];
    }
  }

  lemma SumWithout(v: bool, b: seq<Component>, k: nat)
    requires k < |b|
    ensures SumAlong(v, b) == SumAlong(v, b[..k] + b[k + 1..]) + Along(v, b[k])
    ensures MaxAcross(v, b) == Max(MaxAcross(v, b[..k] + b[k + 1..]), Max(0, Across(v, b[k])))
  {
    assert b == b[..k] + ([b[k]] + b[k + 1..]);
    SumAppend(v, b[..k], [b[k]] + b[k + 1..]);
    SumAppend(v, [b[k]], b[k + 1..]);
    SumAppend(v, b[..k], b[k + 1..]);
    assert [b[k]][..0] == [];
  }

  lemma {:induction false} SizesPermute(v: bool, a: seq<Component>, b: seq<Component>)
    requires multiset(a) == multiset(b)
    ensures SumAlong(v, a) == SumAlong(v, b) && MaxAcross(v, a) == MaxAcross(v, b) && |a| == |b|
  {
    assert |multiset(a)| == |a| && |multiset(b)| == |b|;
    if a != [] {
      assert a[|a| - 1] in multiset(b);
      var k :| 0 <= k < |b| && b[k] == a[|a| - 1];
      RemoveOne(a, b, k);
      SizesPermute(v, a[..|a| - 1], b[..k] + b[k + 1..]);
      SumWithout(v, b, k);
    }
  }
}
