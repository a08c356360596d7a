/** What a plan reports: blocks and problems in the order of the block ids, and for each refused block the
    codes of its placement check. */
module PlanReport {
  import opened Basics
  import opened SchematicGeometry
  import opened Placement
  import opened PlannerModel
  import opened PlannerTheorems
  import opened PlanSafety
  import opened PlanExact
  import opened PlacementMeaning
  import opened PlanMeaning

  // ----- the order of the blocks -----

  ghost predicate IdsRise(less: Less, drafts: seq<Draft>) {
    forall i, j :: 0 <= i < j < |drafts| ==> less(drafts[i].id, drafts[j].id)
  }

  lemma NameOrderTotal(less: Less)
    requires StrictTotalOrder(less)
    ensures TotalPreorder(ByName(less))
  {
    var le := ByName(less);
    forall a, b ensures le(a, b) || le(b, a) {
      assert a == b || less(a, b) || less(b, a);
    }
    forall a, b, c | le(a, b) && le(b, c) ensures le(a, c) {
      assert a == b || less(a, b);
    }
  }

  lemma DraftsRise(less: Less, components: seq<Component>, c: Constraints)
    requires StrictTotalOrder(less)
    ensures IdsRise(less, Drafts(less, components, c))
  {
    var sorted := SortBy(ByComponentId(less), components);
    var ids := SortBy(ByName(less), BlockIds(sorted));
    NameOrderTotal(less);
    SortOrdered(ByName(less), BlockIds(sorted));
    DraftsExact(less, components, c);
    DraftsForIds(ids, sorted, c);
    var drafts := Drafts(less, components, c);
    forall i, j | 0 <= i < j < |drafts| ensures less(drafts[i].id, drafts[j].id) {
      assert ByName(less)(ids[i], ids[j]);
      assert drafts[i].id != drafts[j].id;
    }
  }

  ghost predicate ProblemsInOrder(less: Less, problems: seq<Problem>) {
    forall i, j :: 0 <= i < j < |problems| ==> !less(problems[j].blockId, problems[i].blockId)
  }

  /** Reservations and problems stand in the order of the block ids. */
  ghost predicate InIdOrder(less: Less, blocks: seq<Reservation>, problems: seq<Problem>) {
    && (forall i, j :: 0 <= i < j < |blocks| ==> less(blocks[i].blockId, blocks[j].blockId))
    && ProblemsInOrder(less, problems)
  }

  /** Every block seen so far comes before this id. */
  ghost predicate AllEarlier(less: Less, l: Layout, id: string) {
    && (forall k :: 0 <= k < |l.blocks| ==> less(l.blocks[k].blockId, id))
    && (forall k :: 0 <= k < |l.conflicts| ==> less(l.conflicts[k].blockId, id))
  }

  lemma EarlierDrafts(less: Less, l: Layout, drafts: seq<Draft>, block: Draft)
    requires Decided(l, drafts) && IdsRise(less, drafts + [block])
    ensures AllEarlier(less, l, block.id)
  {
    var all := drafts + [block];
    forall id | Listed(drafts, id) ensures less(id, block.id) {
      var k :| 0 <= k < |drafts| && drafts[k].id == id;
      assert less(all[k].id, all[|drafts|].id);
    }
    forall k | 0 <= k < |l.conflicts| ensures Listed(drafts, l.conflicts[k].blockId) {
      assert HasProblem(l.conflicts, l.conflicts[k].blockId);
    }
  }

  /** The problems of one block, in their order. */
  function Own(id: string): Problem -> bool {
    (p: Problem) => p.blockId == id
  }

  /** The reservations of the blocks before this one. */
  function Before(less: Less, id: string): Reservation -> bool {
    (r: Reservation) => less(r.blockId, id)
  }

  lemma {:induction false} FilterAll<T>(p: T -> bool, s: seq<T>)
    requires forall k :: 0 <= k < |s| ==> p(s[k])
    ensures Filter(p, s) == s
  {
    if s != [] {
      FilterAll(p, s[..|s| - 1]);
      assert s == s[..|s| - 1] + [s[|s| - 1]];
    }
  }

  // ----- the codes of a refused block -----

  /** The problems carry exactly the codes of the conflicts, each once. */
  ghost predicate CodesListed(own: seq<Problem>, id: string, conflicts: seq<Conflict>) {
    && own != [] && Distinct(own)
    && (forall p :: p in own ==> p.blockId == id && p.code.Some?)
    && forall code :: Problem(id, Some(code)) in own <==> HasCode(conflicts, code)
  }

  lemma {:induction false} ProblemsListed(codes: seq<Code>, id: string)
    ensures |ProblemsOf(codes, id)| == |codes|
    ensures forall k :: 0 <= k < |codes| ==> ProblemsOf(codes, id)[k] == Problem(id, Some(codes[k]))
  {
    if codes != [] {
      ProblemsListed(codes[1..], id);
    }
  }

  lemma SummaryLists(conflicts: seq<Conflict>, id: string)
    requires conflicts != []
    ensures CodesListed(ConflictSummary(conflicts, id), id, conflicts)
  {
    var codes, own := DistinctCodes(conflicts), ConflictSummary(conflicts, id);
    ProblemsListed(codes, id);
    FirstSeenExact(CodeOf(), conflicts);
    assert CodeOf()(conflicts[0]) in codes;
    forall code ensures Problem(id, Some(code)) in own <==> HasCode(conflicts, code) {
      if HasCode(conflicts, code) {
        var i :| 0 <= i < |conflicts| && conflicts[i].code == code;
        assert CodeOf()(conflicts[i]) == code && code in codes;
        var k :| 0 <= k < |codes| && codes[k] == code;
        assert own[k] == Problem(id, Some(code));
      }
      if Problem(id, Some(code)) in own {
        assert code in codes;
        var i :| 0 <= i < |conflicts| && CodeOf()(conflicts[i]) == code;
        assert conflicts[i].code == code;
      }
    }
  }

  /** The check of a block of this size at its first place, beside the blocks reserved before it. */
  function FirstCheck(sheet: Sheet, width: int, height: int, input: PlanInput, before: seq<Reservation>): Input {
    var b := FirstPlace(sheet, width, height);
    Input(sheet, Candidate(Position(b.x, b.y), 0, b), input.hardKeepouts, input.reserved,
      input.existing + BlockRegions(before), Some(input.constraints.minimumClearance), Some(1),
      Some(Preference(Start, Upper)))
  }

  /** A reserved block has no problem; a refused one has exactly the codes of its check. */
  ghost predicate ReportRight(less: Less, sheet: Sheet, block: Draft, input: PlanInput, blocks: seq<Reservation>,
                              problems: seq<Problem>)
  {
    ReportFits(less, sheet, block, input, Reserved(blocks, block.id), Filter(Before(less, block.id), blocks),
      Filter(Own(block.id), problems))
  }

  ghost predicate ReportFits(less: Less, sheet: Sheet, block: Draft, input: PlanInput, reserved: bool,
                             before: seq<Reservation>, own: seq<Problem>)
  {
    var check := FirstCheck(sheet, block.width, block.height, input, before);
    if reserved then own == [] else CodesListed(own, block.id, Checked(less, check, check.candidate).conflicts)
  }

  ghost predicate ReportsRight(less: Less, sheet: Sheet, drafts: seq<Draft>, input: PlanInput, l: Layout) {
    forall k :: 0 <= k < |drafts| ==> ReportRight(less, sheet, drafts[k], input, l.blocks, l.conflicts)
  }

  /** Problems of a later block change nothing for an earlier one. */
  lemma RefusedLater(less: Less, sheet: Sheet, block: Draft, input: PlanInput, l: Layout, more: seq<Problem>)
    requires ReportRight(less, sheet, block, input, l.blocks, l.conflicts)
    requires forall k :: 0 <= k < |more| ==> more[k].blockId != block.id
    ensures ReportRight(less, sheet, block, input, l.blocks, l.conflicts + more)
  {
    FilterConcat(Own(block.id), l.conflicts, more);
    FilterNone(Own(block.id), more);
  }

  lemma ReservedLater(less: Less, sheet: Sheet, block: Draft, input: PlanInput, l: Layout, r: Reservation)
    requires ReportRight(less, sheet, block, input, l.blocks, l.conflicts)
    requires r.blockId != block.id && !less(r.blockId, block.id)
    ensures ReportRight(less, sheet, block, input, l.blocks + [r], l.conflicts)
  {
    FilterAppend(Before(less, block.id), l.blocks, r);
    assert Filter(Before(less, block.id), l.blocks + [r]) == Filter(Before(less, block.id), l.blocks);
    ReservedMore(l.blocks, r, block.id);
  }

  lemma RefusedNow(less: Less, sheet: Sheet, block: Draft, input: PlanInput, l: Layout)
    requires StrictTotalOrder(less) && AllEarlier(less, l, block.id)
    requires l.occupancy == input.existing + BlockRegions(l.blocks)
    requires ChosenBounds(less, sheet, block, input, l).None?
    ensures var next := AddBlock(less, sheet, block, input, l);
      ReportRight(less, sheet, block, input, next.blocks, next.conflicts)
  {
    var conflicts := PlacementResult(less, Request(sheet, block, input, l.occupancy)).check.conflicts;
    FilterAll(Before(less, block.id), l.blocks);
    FirstPlaceIsCandidate(sheet, block);
    assert FirstCheck(sheet, block.width, block.height, input, l.blocks) == Request(sheet, block, input, l.occupancy);
    SummaryLists(conflicts, block.id);
    SummaryOwn(less, l, block.id, conflicts);
    NotReserved(less, l, block.id);
  }

  lemma SummaryOwn(less: Less, l: Layout, id: string, conflicts: seq<Conflict>)
    requires StrictTotalOrder(less) && AllEarlier(less, l, id) && conflicts != []
    ensures Filter(Own(id), l.conflicts + ConflictSummary(conflicts, id)) == ConflictSummary(conflicts, id)
  {
    var own := ConflictSummary(conflicts, id);
    SummaryLists(conflicts, id);
    FilterConcat(Own(id), l.conflicts, own);
    FilterNone(Own(id), l.conflicts);
    forall k | 0 <= k < |own| ensures Own(id)(own[k]) {
      assert own[k] in own;
    }
    FilterAll(Own(id), own);
  }

  lemma NotReserved(less: Less, l: Layout, id: string)
    requires StrictTotalOrder(less) && AllEarlier(less, l, id)
    ensures !Reserved(l.blocks, id) && Filter(Own(id), l.conflicts) == []
  {
    FilterNone(Own(id), l.conflicts);
  }

  lemma ReservedNow(less: Less, sheet: Sheet, block: Draft, input: PlanInput, l: Layout, r: Reservation)
    requires StrictTotalOrder(less) && AllEarlier(less, l, block.id) && r.blockId == block.id
    ensures ReportRight(less, sheet, block, input, l.blocks + [r], l.conflicts)
  {
    NotReserved(less, l, block.id);
    ReservedMore(l.blocks, r, block.id);
  }

  lemma NotBack(less: Less, a: string, b: string)
    requires StrictTotalOrder(less)
    ensures !less(a, a) && (less(a, b) ==> !less(b, a))
  {
  }

  lemma OrderJoined(less: Less, problems: seq<Problem>, more: seq<Problem>, id: string)
    requires ProblemsInOrder(less, problems) && !less(id, id)
    requires forall k :: 0 <= k < |problems| ==> !less(id, problems[k].blockId)
    requires forall k :: 0 <= k < |more| ==> more[k].blockId == id
    ensures ProblemsInOrder(less, problems + more)
  {
    var all := problems + more;
    forall i, j | 0 <= i < j < |all| ensures !less(all[j].blockId, all[i].blockId) {
      if j >= |problems| {
        assert all[j] == more[j - |problems|];
      }
    }
  }

  lemma SummaryNamesOnly(conflicts: seq<Conflict>, id: string, k: nat)
    requires conflicts != [] && k < |ConflictSummary(conflicts, id)|
    ensures ConflictSummary(conflicts, id)[k].blockId == id
  {
    SummaryLists(conflicts, id);
    assert ConflictSummary(conflicts, id)[k] in ConflictSummary(conflicts, id);
  }

  lemma SummaryInOrder(less: Less, l: Layout, id: string, conflicts: seq<Conflict>)
    requires StrictTotalOrder(less) && AllEarlier(less, l, id) && conflicts != []
    requires ProblemsInOrder(less, l.conflicts)
    ensures forall k :: 0 <= k < |ConflictSummary(conflicts, id)| ==> ConflictSummary(conflicts, id)[k].blockId == id
    ensures ProblemsInOrder(less, l.conflicts + ConflictSummary(conflicts, id))
  {
    forall k | 0 <= k < |ConflictSummary(conflicts, id)| ensures ConflictSummary(conflicts, id)[k].blockId == id {
      SummaryNamesOnly(conflicts, id, k);
    }
    forall k | 0 <= k < |l.conflicts| ensures !less(id, l.conflicts[k].blockId) {
      NotBack(less, l.conflicts[k].blockId, id);
    }
    NotBack(less, id, id);
    OrderJoined(less, l.conflicts, ConflictSummary(conflicts, id), id);
  }

  lemma RefusedReports(less: Less, sheet: Sheet, drafts: seq<Draft>, block: Draft, input: PlanInput, l: Layout)
    requires StrictTotalOrder(less) && IdsRise(less, drafts + [block]) && AllEarlier(less, l, block.id)
    requires ReportsRight(less, sheet, drafts, input, l) && InIdOrder(less, l.blocks, l.conflicts)
    requires l.occupancy == input.existing + BlockRegions(l.blocks)
    requires ChosenBounds(less, sheet, block, input, l).None?
    ensures var next := AddBlock(less, sheet, block, input, l);
      ReportsRight(less, sheet, drafts + [block], input, next) && InIdOrder(less, next.blocks, next.conflicts)
  {
    var all, next := drafts + [block], AddBlock(less, sheet, block, input, l);
    var conflicts := PlacementResult(less, Request(sheet, block, input, l.occupancy)).check.conflicts;
    var more := ConflictSummary(conflicts, block.id);
    SummaryInOrder(less, l, block.id, conflicts);
    forall k | 0 <= k < |all| ensures ReportRight(less, sheet, all[k], input, next.blocks, next.conflicts) {
      if k < |drafts| {
        assert less(all[k].id, all[|drafts|].id);
        RefusedLater(less, sheet, drafts[k], input, l, more);
      } else {
        RefusedNow(less, sheet, block, input, l);
      }
    }
  }

  lemma ReservedReports(less: Less, sheet: Sheet, drafts: seq<Draft>, block: Draft, input: PlanInput, l: Layout,
                        next: Layout, r: Reservation)
    requires StrictTotalOrder(less) && IdsRise(less, drafts + [block]) && AllEarlier(less, l, block.id)
    requires ReportsRight(less, sheet, drafts, input, l) && InIdOrder(less, l.blocks, l.conflicts)
    requires next.blocks == l.blocks + [r] && next.conflicts == l.conflicts && r.blockId == block.id
    ensures ReportsRight(less, sheet, drafts + [block], input, next) && InIdOrder(less, next.blocks, next.conflicts)
  {
    var all := drafts + [block];
    forall k | 0 <= k < |all| ensures ReportRight(less, sheet, all[k], input, next.blocks, next.conflicts) {
      if k < |drafts| {
        assert less(all[k].id, all[|drafts|].id);
        ReservedLater(less, sheet, drafts[k], input, l, r);
      } else {
        ReservedNow(less, sheet, block, input, l, r);
      }
    }
  }

  lemma BlockReports(less: Less, sheet: Sheet, drafts: seq<Draft>, block: Draft, input: PlanInput, l: Layout)
    requires StrictTotalOrder(less) && IdsRise(less, drafts + [block]) && AllEarlier(less, l, block.id)
    requires ReportsRight(less, sheet, drafts, input, l) && InIdOrder(less, l.blocks, l.conflicts)
    requires l.occupancy == input.existing + BlockRegions(l.blocks)
    ensures var next := AddBlock(less, sheet, block, input, l);
      ReportsRight(less, sheet, drafts + [block], input, next) && InIdOrder(less, next.blocks, next.conflicts)
  {
    var b := ChosenBounds(less, sheet, block, input, l);
    AddBlockCases(less, sheet, block, input, l);
    if b.Some? {
      ReservedReports(less, sheet, drafts, block, input, l, AddBlock(less, sheet, block, input, l),
        Reservation(block.id, b.value));
    } else {
      RefusedReports(less, sheet, drafts, block, input, l);
    }
  }

  lemma {:induction false} LaidOutReports(less: Less, sheet: Sheet, drafts: seq<Draft>, input: PlanInput)
    requires StrictTotalOrder(less) && IdsRise(less, drafts)
    requires DistinctDrafts(drafts) && Built(drafts, input.constraints)
    ensures var l := LaidOut(less, sheet, drafts, input);
      ReportsRight(less, sheet, drafts, input, l) && InIdOrder(less, l.blocks, l.conflicts)
  {
    if drafts != [] {
      var n := |drafts| - 1;
      var before, block := LaidOut(less, sheet, drafts[..n], input), drafts[n];
      LastDraft(drafts, input.constraints);
      LaidOutReports(less, sheet, drafts[..n], input);
      LaidOutDecided(less, sheet, drafts[..n], input);
      EarlierDrafts(less, before, drafts[..n], block);
      LaidOutBlocksSafe(less, sheet, drafts[..n], input);
      BlockReports(less, sheet, drafts[..n], block, input, before);
    }
  }

  /** Main result on the report of any plan: blocks and problems stand in the order of the block ids; a reserved
      block has no problem, and a refused one has exactly the codes of the check of its first place, each once. */
  lemma PlanReports(less: Less, page: Page, fallback: Option<Page>, allowFallback: bool, input: PlanInput)
    requires StrictTotalOrder(less)
    ensures var plan := Planned(less, page, fallback, allowFallback, input);
      && InIdOrder(less, plan.layout.blocks, plan.layout.conflicts)
      && ReportsRight(less, plan.page.sheet, Drafts(less, input.components, input.constraints), input, plan.layout)
  {
    var plan := Planned(less, page, fallback, allowFallback, input);
    var drafts := Drafts(less, input.components, input.constraints);
    DraftsRise(less, input.components, input.constraints);
    DraftsExact(less, input.components, input.constraints);
    LaidOutReports(less, plan.page.sheet, drafts, input);
  }
}
