/** The functional layout plan: block drafts, reservations on the sheet, members inside
    them, and the order of placement. */
module PlannerModel {
  import opened Basics
  import opened SchematicGeometry
  import opened Placement

  datatype Component = Component(
    id: string, blockId: string, main: bool, parentId: Option<string>, width: int, height: int,
    preferredRotation: Option<int>, allowedRotations: Option<seq<int>>)

  datatype Constraints = Constraints(minimumClearance: int, blockPadding: int, componentSpacing: int, topToBottom: bool)

  datatype Draft = Draft(id: string, mains: seq<Component>, supports: seq<Component>, width: int, height: int)

  datatype Reservation = Reservation(blockId: string, bounds: Bounds)

  datatype Placed = Placed(component: Component, rotation: int, bounds: Bounds, placementOrder: nat)

  datatype Problem = Problem(blockId: string, code: Option<Code>)

  datatype PlanInput = PlanInput(
    components: seq<Component>, hardKeepouts: seq<Region>, reserved: seq<Region>, existing: seq<Region>,
    constraints: Constraints)

  /** What attemptSheet has built so far. */
  datatype Layout = Layout(
    blocks: seq<Reservation>, placements: seq<Placed>, occupancy: seq<Region>, conflicts: seq<Problem>)

  datatype PageSize = A4 | A3 | Custom

  datatype Page = Page(size: PageSize, sheet: Sheet)

  datatype Plan = Plan(feasible: bool, page: Page, layout: Layout, order: seq<Component>)

  // ----- components -----

  function Least(s: seq<int>): int
    requires s != []
  {
    if |s| == 1 then s[0] else Min(s[0], Least(s[1..]))
  }

  function Rotation(c: Component): int {
    var allowed := if c.allowedRotations.Some? then c.allowedRotations.value else [0, 90, 180, 270];
    if c.preferredRotation.Some? && c.preferredRotation.value in allowed then c.preferredRotation.value
    else if allowed == [] then 0 else Least(allowed)
  }

  predicate Turned(c: Component) {
    Rotation(c) == 90 || Rotation(c) == 270
  }

  function Width(c: Component): int { if Turned(c) then c.height else c.width }

  function Height(c: Component): int { if Turned(c) then c.width else c.height }

  /** Size along the preferred flow, and across it. */
  function Along(vertical: bool, c: Component): int { if vertical then Height(c) else Width(c) }

  function Across(vertical: bool, c: Component): int { if vertical then Width(c) else Height(c) }

  function SumAlong(vertical: bool, s: seq<Component>): int {
    if s == [] then 0 else SumAlong(vertical, s[..|s| - 1]) + Along(vertical, s[|s| - 1])
  }

  function MaxAcross(vertical: bool, s: seq<Component>): (r: int)
    ensures r >= 0
  {
    if s == [] then 0 else Max(MaxAcross(vertical, s[..|s| - 1]), Across(vertical, s[|s| - 1]))
  }

  // ----- drafts -----

  function ByComponentId(less: Less): (Component, Component) -> bool {
    (a: Component, b: Component) => !less(b.id, a.id)
  }

  function ByName(less: Less): (string, string) -> bool {
    (a: string, b: string) => !less(b, a)
  }

  function BlockOf(): Component -> string {
    (c: Component) => c.blockId
  }

  function BlockIds(s: seq<Component>): seq<string> {
    FirstSeen(BlockOf(), s)
  }

  function IsMain(): Component -> bool {
    (c: Component) => c.main
  }

  function IsSupport(): Component -> bool {
    (c: Component) => !c.main
  }

  function DraftOf(id: string, members: seq<Component>, c: Constraints): Draft {
    var mains, supports := Filter(IsMain(), members), Filter(IsSupport(), members);
    var ordered := mains + supports;
    var along := SumAlong(c.topToBottom, ordered) + Max(0, |ordered| - 1) * c.componentSpacing + c.blockPadding * 2;
    var across := MaxAcross(c.topToBottom, ordered) + c.blockPadding * 2;
    if c.topToBottom then Draft(id, mains, supports, across, along) else Draft(id, mains, supports, along, across)
  }

  function DraftsFor(ids: seq<string>, sorted: seq<Component>, c: Constraints): seq<Draft> {
    if ids == [] then []
    else
      var n := |ids| - 1;
      DraftsFor(ids[..n], sorted, c) + [DraftOf(ids[n], Filter(WithKey(BlockOf(), ids[n]), sorted), c)]
  }

  function Drafts(less: Less, components: seq<Component>, c: Constraints): seq<Draft> {
    var sorted := SortBy(ByComponentId(less), components);
    DraftsFor(SortBy(ByName(less), BlockIds(sorted)), sorted, c)
  }

  // ----- one block on the sheet -----

  function InitialCandidate(sheet: Sheet, block: Draft): Candidate {
    var x := SnapToGrid(sheet.drawable.x + sheet.grid, sheet.grid);
    var y := SnapToGrid(
               if sheet.yDown then sheet.drawable.y + sheet.grid
                 else Bottom(sheet.drawable) - block.height - sheet.grid, sheet.grid);
    Candidate(Position(x, y), 0, Bounds(x, y, block.width, block.height))
  }

  function Request(sheet: Sheet, block: Draft, input: PlanInput, occupancy: seq<Region>): Input {
    Input(sheet, InitialCandidate(sheet, block), input.hardKeepouts, input.reserved, occupancy,
      Some(input.constraints.minimumClearance), Some(1), Some(Preference(Start, Upper)))
  }

  function Chosen(request: Input, result: Result): Option<Candidate> {
    if result.check.accepted then Some(request.candidate)
    else if |result.alternatives| > 0 then Some(result.alternatives[0])
    else None
  }

  function ParentKey(c: Component): string {
    if c.parentId.Some? then c.parentId.value else ""
  }

  /** Mains first, then by parent, then by id. */
  function MemberOrder(less: Less): (Component, Component) -> bool {
    (a: Component, b: Component) =>
      if a.main != b.main then a.main
      else if less(ParentKey(a), ParentKey(b)) then true
      else if less(ParentKey(b), ParentKey(a)) then false
      else !less(b.id, a.id)
  }

  function Snapper(grid: int): int -> int {
    (v: int) => SnapToGrid(v, grid)
  }

  function NextX(c: Constraints, m: Component, x: int): int {
    if c.topToBottom then x else x + Width(m) + c.componentSpacing
  }

  function NextY(c: Constraints, m: Component, y: int): int {
    if c.topToBottom then y + Height(m) + c.componentSpacing else y
  }

  function PlaceOne(snap: int -> int, m: Component, x: int, y: int, order: nat): Placed {
    Placed(m, Rotation(m), Bounds(snap(x), snap(y), Width(m), Height(m)), order)
  }

  /** The cursor after the given members. */
  function CursorX(c: Constraints, members: seq<Component>, x: int): int {
    if members == [] then x else NextX(c, members[|members| - 1], CursorX(c, members[..|members| - 1], x))
  }

  function CursorY(c: Constraints, members: seq<Component>, y: int): int {
    if members == [] then y else NextY(c, members[|members| - 1], CursorY(c, members[..|members| - 1], y))
  }

  function PlaceFrom(snap: int -> int, members: seq<Component>, x: int, y: int, c: Constraints,
                     order: nat): (r: seq<Placed>)
    ensures |r| == |members|
  {
    if members == [] then []
    else
      var n := |members| - 1;
      PlaceFrom(snap, members[..n], x, y, c, order)
      + [PlaceOne(snap, members[n], CursorX(c, members[..n], x), CursorY(c, members[..n], y), order + n)]
  }

  function Members(less: Less, block: Draft): seq<Component> {
    SortBy(MemberOrder(less), block.mains + block.supports)
  }

  function PlacedMembers(less: Less, block: Draft, bounds: Bounds, c: Constraints, grid: int, order: nat): seq<Placed> {
    PlaceFrom(Snapper(grid), Members(less, block), bounds.x + c.blockPadding, bounds.y + c.blockPadding, c, order)
  }

  // ----- the sheet -----

  function CodeOf(): Conflict -> Code {
    (c: Conflict) => c.code
  }

  function DistinctCodes(conflicts: seq<Conflict>): seq<Code> {
    FirstSeen(CodeOf(), conflicts)
  }

  function ProblemsOf(codes: seq<Code>, blockId: string): seq<Problem> {
    if codes == [] then [] else [Problem(blockId, Some(codes[0]))] + ProblemsOf(codes[1..], blockId)
  }

  function ConflictSummary(conflicts: seq<Conflict>, blockId: string): seq<Problem> {
    if conflicts == [] then [Problem(blockId, None)] else ProblemsOf(DistinctCodes(conflicts), blockId)
  }

  function AddBlock(less: Less, sheet: Sheet, block: Draft, input: PlanInput, l: Layout): Layout {
    var request := Request(sheet, block, input, l.occupancy);
    var result := PlacementResult(less, request);
    match Chosen(request, result)
    case None => l.(conflicts := l.conflicts + ConflictSummary(result.check.conflicts, block.id))
    case Some(selected) => Reserve(less, sheet, block, input, l, selected.bounds)
  }

  function Reserve(less: Less, sheet: Sheet, block: Draft, input: PlanInput, l: Layout, bounds: Bounds): Layout {
    l.(blocks := l.blocks + [Reservation(block.id, bounds)],
       occupancy := l.occupancy + [Region("block:" + block.id, CallerReserved, bounds)],
       placements := l.placements + PlacedMembers(less, block, bounds, input.constraints, sheet.grid, |l.placements|))
  }

  function LaidOut(less: Less, sheet: Sheet, drafts: seq<Draft>, input: PlanInput): Layout {
    if drafts == [] then Layout([], [], input.existing, [])
    else AddBlock(less, sheet, drafts[|drafts| - 1], input, LaidOut(less, sheet, drafts[..|drafts| - 1], input))
  }

  // ----- the global order -----

  /** Mains first, then by block, then by id. */
  predicate GlobalLe(less: Less, a: Component, b: Component) {
    if a.main != b.main then a.main
    else if less(a.blockId, b.blockId) then true
    else if less(b.blockId, a.blockId) then false
    else !less(b.id, a.id)
  }

  function GlobalOrder(less: Less, placements: seq<Placed>): (nat, nat) -> bool {
    (i: nat, j: nat) =>
      if i >= |placements| || j >= |placements| then i <= j
      else GlobalLe(less, placements[i].component, placements[j].component)
  }

  function UpTo(n: nat): (r: seq<nat>)
    ensures |r| == n && forall i :: 0 <= i < n ==> r[i] == i
  {
    if n == 0 then [] else UpTo(n - 1) + [n - 1]
  }

  /** Writes rank k into the placement at index order[k], for every k. */
  function Ranked(placements: seq<Placed>, order: seq<nat>): (r: seq<Placed>)
    ensures |r| == |placements|
  {
    if order == [] then placements
    else
      var n := |order| - 1;
      var before := Ranked(placements, order[..n]);
      if order[n] < |before| then before[order[n] := before[order[n]].(placementOrder := n)] else before
  }

  function WithRanks(less: Less, l: Layout): Layout {
    l.(placements := Ranked(l.placements, SortBy(GlobalOrder(less, l.placements), UpTo(|l.placements|))))
  }

  function Attempt(less: Less, sheet: Sheet, drafts: seq<Draft>, input: PlanInput): Layout {
    WithRanks(less, LaidOut(less, sheet, drafts, input))
  }

  predicate AllPlaced(l: Layout, drafts: seq<Draft>) {
    l.conflicts == [] && |l.blocks| == |drafts|
  }

  function ByRank(): (Placed, Placed) -> bool {
    (a: Placed, b: Placed) => a.placementOrder <= b.placementOrder
  }

  function Parts(placements: seq<Placed>): (r: seq<Component>)
    ensures |r| == |placements| && forall k :: 0 <= k < |r| ==> r[k] == placements[k].component
  {
    seq(|placements|, k requires 0 <= k < |placements| => placements[k].component)
  }

  function PlanOn(less: Less, page: Page, drafts: seq<Draft>, input: PlanInput): Plan {
    var l := Attempt(less, page.sheet, drafts, input);
    Plan(AllPlaced(l, drafts), page, l, Parts(SortBy(ByRank(), l.placements)))
  }

  /** The plan for the page, or for the A3 fallback where an A4 page does not suffice. */
  function Planned(less: Less, page: Page, fallback: Option<Page>, allowFallback: bool, input: PlanInput): Plan {
    var drafts := Drafts(less, input.components, input.constraints);
    var primary := PlanOn(less, page, drafts, input);
    if !primary.feasible && allowFallback && page.size == A4 && fallback.Some? && fallback.value.size == A3
       && PlanOn(less, fallback.value, drafts, input).feasible
    then PlanOn(less, fallback.value, drafts, input)
    else primary
  }
}
