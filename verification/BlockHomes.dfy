/** Which block every component ends in: that of the first explicit block that names it, else its declared block,
    else its own, else that of the best neighbouring anchor, else its own again. */
module BlockHomes {
  import opened Basics
  import opened BlockDetector
  import opened BlockPartition

  /** Some block with this id, kind and origin lists the component. */
  ghost predicate Home(blocks: seq<Block>, id: string, kind: Kind, given: bool, component: string) {
    exists k :: 0 <= k < |blocks| && IsHome(blocks[k], id, kind, given, component)
  }

  predicate IsHome(b: Block, id: string, kind: Kind, given: bool, component: string) {
    b.id == id && b.kind == kind && b.isExplicit == given && component in b.componentIds
  }

  /** Homes stay, and blocks keep their place, id and kind. */
  ghost predicate Keeps(d: Detection, e: Detection) {
    && |d.blocks| <= |e.blocks|
    && forall k :: 0 <= k < |d.blocks| ==> KeepsBlock(d.blocks[k], e.blocks[k])
  }

  ghost predicate KeepsBlock(b: Block, c: Block) {
    c.id == b.id && c.kind == b.kind && c.isExplicit == b.isExplicit && forall x :: x in b.componentIds ==>
      x in c.componentIds
  }

  lemma HomeKept(d: Detection, e: Detection, id: string, kind: Kind, given: bool, component: string)
    requires Keeps(d, e) && Home(d.blocks, id, kind, given, component)
    ensures Home(e.blocks, id, kind, given, component)
  {
    var k :| 0 <= k < |d.blocks| && IsHome(d.blocks[k], id, kind, given, component);
    assert IsHome(e.blocks[k], id, kind, given, component);
  }

  lemma KeepsTransitive(a: Detection, b: Detection, c: Detection)
    requires Keeps(a, b) && Keeps(b, c)
    ensures Keeps(a, c)
  {
    forall k | 0 <= k < |a.blocks| ensures KeepsBlock(a.blocks[k], c.blocks[k]) {
      assert KeepsBlock(a.blocks[k], b.blocks[k]) && KeepsBlock(b.blocks[k], c.blocks[k]);
    }
  }

  lemma SortedIds(ids: seq<string>)
    ensures forall x :: x in SortBy(ById(), ids) <==> x in ids
  {
    SortPermutes(ById(), ids);
    MultisetMembers(SortBy(ById(), ids), ids);
  }

  // ----- explicit blocks -----

  /** Block k names the component, and no block that names it has a smaller id. */
  ghost predicate FirstToName(blocks: seq<ExplicitBlock>, k: int, component: string) {
    && 0 <= k < |blocks| && component in blocks[k].componentIds
    && forall j :: 0 <= j < |blocks| && component in blocks[j].componentIds ==> !StrLess(blocks[j].id, blocks[k].id)
  }

  /** The block that takes the component in the explicit phase is the first in the list to name it. */
  ghost predicate FirstListed(ordered: seq<ExplicitBlock>, k: int, component: string) {
    && 0 <= k < |ordered| && component in ordered[k].componentIds
    && forall j :: 0 <= j < k ==> component !in ordered[j].componentIds
  }

  lemma ExplicitKeeps(known: set<string>, e: ExplicitBlock, d: Detection)
    ensures Keeps(d, AddExplicit(known, e, d))
  {
  }

  lemma NewlyNamed(known: set<string>, e: ExplicitBlock, d: Detection, component: string)
    requires component in known && component !in d.claimed && component in e.componentIds
    ensures Home(AddExplicit(known, e, d).blocks, e.id, e.kind, true, component)
  {
    ExplicitIdsExact(known, d.claimed, e, component);
    assert IsHome(AddExplicit(known, e, d).blocks[|d.blocks|], e.id, e.kind, true, component);
  }

  lemma FirstListedLater(ordered: seq<ExplicitBlock>, component: string, k: nat)
    requires ordered != [] && FirstListed(ordered[..|ordered| - 1], k, component)
    ensures FirstListed(ordered, k, component) && ordered[k] == ordered[..|ordered| - 1][k]
  {
    var n := |ordered| - 1;
    forall j | 0 <= j < k ensures component !in ordered[j].componentIds {
      assert ordered[..n][j] == ordered[j];
    }
  }

  lemma FirstListedNow(ordered: seq<ExplicitBlock>, component: string)
    requires ordered != [] && component in ordered[|ordered| - 1].componentIds
    requires !Mentioned(ordered[..|ordered| - 1], component)
    ensures FirstListed(ordered, |ordered| - 1, component)
  {
    var n := |ordered| - 1;
    forall j | 0 <= j < n ensures component !in ordered[j].componentIds {
      assert ordered[..n][j] == ordered[j];
    }
  }

  lemma {:induction false} ExplicitHome(known: set<string>, ordered: seq<ExplicitBlock>, component: string)
    returns (k: nat)
    requires component in known && Mentioned(ordered, component)
    ensures FirstListed(ordered, k, component)
    ensures Home(ExplicitPhase(known, ordered).blocks, ordered[k].id, ordered[k].kind, true, component)
  {
    var n := |ordered| - 1;
    var e, before := ordered[n], ExplicitPhase(known, ordered[..n]);
    MentionedLast(ordered, component);
    if Mentioned(ordered[..n], component) {
      k := ExplicitHome(known, ordered[..n], component);
      FirstListedLater(ordered, component, k);
      ExplicitKeeps(known, e, before);
      HomeKept(before, AddExplicit(known, e, before), ordered[k].id, ordered[k].kind, true, component);
    } else {
      k := n;
      FirstListedNow(ordered, component);
      ExplicitPhaseExact(known, ordered[..n]);
      NewlyNamed(known, e, before, component);
    }
  }

  lemma ExplicitOrderTotal()
    ensures TotalPreorder(ExplicitOrder())
  {
    var le := ExplicitOrder();
    forall a, b ensures le(a, b) || le(b, a) {
      StrAsymmetric(a.id, b.id);
    }
    forall a, b, c | le(a, b) && le(b, c) ensures le(a, c) {
      NotLessTransitive(a.id, b.id, c.id);
    }
  }

  lemma FirstInOrder(blocks: seq<ExplicitBlock>, k: nat, component: string) returns (i: nat)
    requires FirstListed(SortBy(ExplicitOrder(), blocks), k, component)
    ensures i < |blocks| && blocks[i] == SortBy(ExplicitOrder(), blocks)[k] && FirstToName(blocks, i, component)
  {
    var le, ordered := ExplicitOrder(), SortBy(ExplicitOrder(), blocks);
    SortPermutes(le, blocks);
    MultisetMembers(ordered, blocks);
    ExplicitOrderTotal();
    SortOrdered(le, blocks);
    assert ordered[k] in blocks;
    i :| i < |blocks| && blocks[i] == ordered[k];
    forall j | 0 <= j < |blocks| && component in blocks[j].componentIds ensures !StrLess(blocks[j].id, blocks[i].id) {
      assert blocks[j] in ordered;
      var m :| 0 <= m < |ordered| && ordered[m] == blocks[j];
      StrIrreflexive(blocks[i].id);
      assert m == k || le(ordered[k], ordered[m]);
    }
  }

  // ----- declared blocks -----

  lemma {:induction false} DeclaredKeeps(kindOf: KindOf, declared: seq<Component>, blockIds: seq<string>, d: Detection)
    ensures Keeps(d, DeclaredPhase(kindOf, declared, blockIds, d))
  {
    if blockIds != [] {
      DeclaredKeeps(kindOf, declared, blockIds[..|blockIds| - 1], d);
    }
  }

  /** The components that no explicit block names and that declare this block, in their order. */
  ghost function Declarers(explicitBlocks: seq<ExplicitBlock>, blockId: string): Component -> bool {
    (c: Component) => c.blockId == blockId && !Mentioned(explicitBlocks, c.id)
  }

  lemma NewlyDeclared(kindOf: KindOf, declared: seq<Component>, c: Component, d: Detection)
    requires c in declared
    ensures Home(AddDeclared(kindOf, declared, c.blockId, d).blocks, "inferred:" + c.blockId,
      DominantKind(kindOf, Filter(WithKey(DeclaredBlock(), c.blockId), declared)), false, c.id)
  {
    var members := Filter(WithKey(DeclaredBlock(), c.blockId), declared);
    var e := AddDeclared(kindOf, declared, c.blockId, d);
    GroupIds(declared, c.blockId, c.id);
    SortedIds(Ids(members));
    assert IsHome(e.blocks[|d.blocks|], "inferred:" + c.blockId, DominantKind(kindOf, members), false, c.id);
  }

  lemma {:induction false} DeclaredHome(kindOf: KindOf, declared: seq<Component>, blockIds: seq<string>, d: Detection,
                                        c: Component)
    requires c in declared && c.blockId in blockIds
    ensures Home(DeclaredPhase(kindOf, declared, blockIds, d).blocks, "inferred:" + c.blockId,
      DominantKind(kindOf, Filter(WithKey(DeclaredBlock(), c.blockId), declared)), false, c.id)
  {
    var n := |blockIds| - 1;
    var before := DeclaredPhase(kindOf, declared, blockIds[..n], d);
    if c.blockId == blockIds[n] {
      NewlyDeclared(kindOf, declared, c, before);
    } else {
      assert blockIds == blockIds[..n] + [blockIds[n]];
      DeclaredHome(kindOf, declared, blockIds[..n], d, c);
      assert Keeps(before, AddDeclared(kindOf, declared, blockIds[n], before));
      HomeKept(before, DeclaredPhase(kindOf, declared, blockIds, d), "inferred:" + c.blockId,
        DominantKind(kindOf, Filter(WithKey(DeclaredBlock(), c.blockId), declared)), false, c.id);
    }
  }

  /** After the declared phase, a component no explicit block names stands in the block it declares. */
  lemma {:induction false} AfterDeclaredHome(kindOf: KindOf, components: seq<Component>,
                                             explicitBlocks: seq<ExplicitBlock>, d: Detection, c: Component)
    requires forall k :: 0 <= k < |components| ==>
      (components[k].id in d.claimed <==> Mentioned(explicitBlocks, components[k].id))
    requires c in components && c.blockId != "" && c.id !in d.claimed
    ensures Home(AfterDeclared(kindOf, components, d).blocks, "inferred:" + c.blockId,
      DominantKind(kindOf, Filter(Declarers(explicitBlocks, c.blockId), components)), false, c.id)
  {
    var declared := Filter(Declares(d.claimed), components);
    var keys := FirstSeen(DeclaredBlock(), declared);
    FilterCounts(Declares(d.claimed), components, c);
    assert c in multiset(components) && c in multiset(declared);
    FirstSeenExact(DeclaredBlock(), declared);
    var k :| 0 <= k < |declared| && declared[k] == c;
    assert DeclaredBlock()(declared[k]) in keys;
    SortedIds(keys);
    DeclaredHome(kindOf, declared, SortBy(ById(), keys), d, c);
    FilterTwice(WithKey(DeclaredBlock(), c.blockId), Declares(d.claimed), Declarers(explicitBlocks, c.blockId),
      components);
  }

  // ----- anchors -----

  function AnchorId(kindOf: KindOf, c: Component): string {
    "inferred:" + KindName(kindOf(c)) + ":" + c.id
  }

  /** The components of this id whose kind is known. */
  function Kinded(kindOf: KindOf, id: string): Component -> bool {
    (c: Component) => c.id == id && kindOf(c) != Other
  }

  lemma {:induction false} AnchorKeeps(kindOf: KindOf, ordered: seq<Component>, d: Detection)
    ensures Keeps(d, AnchorPhase(kindOf, ordered, d))
  {
    if ordered != [] {
      AnchorKeeps(kindOf, ordered[..|ordered| - 1], d);
    }
  }

  /** The anchors are the unclaimed ids with a component of known kind; the first such component opens the block. */
  ghost predicate AnchorsRight(kindOf: KindOf, components: seq<Component>, d: Detection, e: Detection) {
    && e.claimed == d.claimed + e.anchors.Keys
    && forall a :: AnchorRight(kindOf, Filter(Kinded(kindOf, a), components), d, e, a)
  }

  ghost predicate AnchorRight(kindOf: KindOf, kin: seq<Component>, d: Detection, e: Detection, a: string) {
    && (a in e.anchors <==> a !in d.claimed && kin != [])
    && (a in e.anchors ==> e.anchors[a] < |e.blocks|
                           && IsHome(e.blocks[e.anchors[a]], AnchorId(kindOf, kin[0]), kindOf(kin[0]), false, a))
  }

  lemma {:induction false} AnchorPhaseRight(kindOf: KindOf, ordered: seq<Component>, d: Detection)
    requires d.anchors == map[]
    ensures AnchorsRight(kindOf, ordered, d, AnchorPhase(kindOf, ordered, d))
  {
    if ordered != [] {
      var n := |ordered| - 1;
      var c, before := ordered[n], AnchorPhase(kindOf, ordered[..n], d);
      AnchorPhaseRight(kindOf, ordered[..n], d);
      forall a ensures AnchorRight(kindOf, Filter(Kinded(kindOf, a), ordered), d, AddAnchor(kindOf, c, before), a) {
        AnchorNext(kindOf, Filter(Kinded(kindOf, a), ordered[..n]), c, d, before, a);
      }
    }
  }

  lemma AnchorNext(kindOf: KindOf, kin: seq<Component>, c: Component, d: Detection, before: Detection, a: string)
    requires before.claimed == d.claimed + before.anchors.Keys && AnchorRight(kindOf, kin, d, before, a)
    ensures AnchorRight(kindOf, kin + if Kinded(kindOf, a)(c) then [c] else [], d, AddAnchor(kindOf, c, before), a)
  {
    SortedIds([c.id]);
  }

  /** Sorting by id keeps the components of one id in their order. */
  lemma KindedSorted(kindOf: KindOf, components: seq<Component>, id: string)
    ensures Filter(Kinded(kindOf, id), SortBy(ComponentOrder(), components)) == Filter(Kinded(kindOf, id), components)
  {
    var le, p := ComponentOrder(), Kinded(kindOf, id);
    var some := Component(id, "", "");
    assert TotalPreorder(le) by {
      forall a, b ensures le(a, b) || le(b, a) {
        StrAsymmetric(a.id, b.id);
      }
      forall a, b, c | le(a, b) && le(b, c) ensures le(a, c) {
        NotLessTransitive(a.id, b.id, c.id);
      }
    }
    SortStable(le, components, some);
    forall c ensures TiedWith(le, some)(c) <==> c.id == id {
      StrTotal(c.id, id);
      StrIrreflexive(id);
    }
    FilterTwice(p, TiedWith(le, some), p, SortBy(le, components));
    FilterTwice(p, TiedWith(le, some), p, components);
  }

  // ----- the preference among kinds -----

  lemma KindsListed(i: nat, kind: Kind)
    requires i < |KIND_PRIORITY| && KIND_PRIORITY[i] == kind
    ensures Priority(kind) == i
  {
    assert forall j :: 0 <= j < i ==> KIND_PRIORITY[j] != KIND_PRIORITY[i];
    IndexExact(KIND_PRIORITY, i);
  }

  /** The place of a kind among those a helper prefers. */
  function Place(kind: Kind): nat {
    match kind
    case Usb => 0
    case Debug => 1
    case Regulation => 2
    case PowerInput => 3
    case Mcu => 4
    case Memory => 5
    case Crystal => 6
    case MotorDriver => 7
    case LedChain => 8
    case Sensor => 9
    case AnalogFrontEnd => 10
    case Connector => 11
    case Other => 12
  }

  lemma KindsPreferred(kind: Kind)
    ensures Priority(kind) == Place(kind)
  {
    KindsListed(Place(kind), kind);
  }

  lemma {:induction false} IndexExact(kinds: seq<Kind>, i: nat)
    requires i < |kinds| && forall j :: 0 <= j < i ==> kinds[j] != kinds[i]
    ensures IndexOf(kinds[i], kinds) == i
  {
    if i > 0 {
      IndexExact(kinds[1..], i - 1);
    }
  }

  // ----- helpers -----

  predicate Anchored(d: Detection, a: string) {
    a in d.anchors && d.anchors[a] < |d.blocks|
  }

  function AnchorBlock(d: Detection, a: string): Block
    requires Anchored(d, a)
  {
    d.blocks[d.anchors[a]]
  }

  /** A helper takes the block of this kind and id before the other: by priority of the kind, then by id. */
  predicate Prefers(kind: Kind, id: string, other: Kind, otherId: string) {
    Place(kind) < Place(other) || (Place(kind) == Place(other) && !StrLess(otherId, id))
  }

  ghost predicate BestNeighbour(neighbours: seq<string>, d: Detection, a: string) {
    && a in neighbours && Anchored(d, a)
    && forall b :: b in neighbours && Anchored(d, b) ==>
         Prefers(AnchorBlock(d, a).kind, AnchorBlock(d, a).id, AnchorBlock(d, b).kind, AnchorBlock(d, b).id)
  }

  lemma {:induction false} AnchorBlocksExact(neighbours: seq<string>, d: Detection)
    ensures forall a :: a in neighbours && Anchored(d, a) ==> d.anchors[a] in AnchorBlocks(neighbours, d)
    ensures forall k :: k in AnchorBlocks(neighbours, d) ==>
      exists a :: a in neighbours && Anchored(d, a) && d.anchors[a] == k
  {
    if neighbours != [] {
      var n := |neighbours| - 1;
      AnchorBlocksExact(neighbours[..n], d);
      assert neighbours == neighbours[..n] + [neighbours[n]];
    }
  }

  lemma OwnerOrderTotal(blocks: seq<Block>)
    ensures TotalPreorder(OwnerOrder(blocks))
  {
    var le := OwnerOrder(blocks);
    forall i: nat, j: nat ensures le(i, j) || le(j, i) {
      if i < |blocks| && j < |blocks| {
        StrAsymmetric(blocks[i].id, blocks[j].id);
      }
    }
    forall i: nat, j: nat, k: nat | le(i, j) && le(j, k) ensures le(i, k) {
      if i < |blocks| && j < |blocks| && k < |blocks| {
        NotLessTransitive(blocks[i].id, blocks[j].id, blocks[k].id);
      }
    }
  }

  /** The owner is the block of the best neighbouring anchor, if a neighbour is one. */
  lemma OwnerIsBest(neighbours: seq<string>, d: Detection) returns (a: string)
    ensures match Owner(neighbours, d)
      case Some(k) => BestNeighbour(neighbours, d, a) && d.anchors[a] == k
      case None => forall b :: b in neighbours ==> !Anchored(d, b)
  {
    a := "";
    var found := AnchorBlocks(neighbours, d);
    AnchorBlocksExact(neighbours, d);
    if found != [] {
      OwnerOrderTotal(d.blocks);
      SortedHead(OwnerOrder(d.blocks), found, found[0]);
      var k := SortBy(OwnerOrder(d.blocks), found)[0];
      a :| a in neighbours && Anchored(d, a) && d.anchors[a] == k;
      forall b | b in neighbours && Anchored(d, b)
        ensures Prefers(d.blocks[k].kind, d.blocks[k].id, AnchorBlock(d, b).kind, AnchorBlock(d, b).id)
      {
        SortedHead(OwnerOrder(d.blocks), found, d.anchors[b]);
        KindsPreferred(d.blocks[k].kind);
        KindsPreferred(AnchorBlock(d, b).kind);
      }
    }
  }

  lemma JoinedKeeps(b: Block, id: string)
    ensures KeepsBlock(b, Joined(b, id)) && id in Joined(b, id).componentIds
  {
    SortedIds(b.componentIds + [id]);
  }

  lemma HelperKeepsOne(adjacency: string -> seq<string>, c: Component, d: Detection)
    ensures Keeps(d, AddHelper(adjacency, c, d)) && AddHelper(adjacency, c, d).anchors == d.anchors
  {
    var owner := Owner(adjacency(c.id), d);
    if owner.Some? && owner.value < |d.blocks| {
      JoinedKeeps(d.blocks[owner.value], c.id);
    }
  }

  lemma {:induction false} HelperKeeps(adjacency: string -> seq<string>, ordered: seq<Component>, d: Detection)
    ensures Keeps(d, HelperPhase(adjacency, ordered, d)) && HelperPhase(adjacency, ordered, d).anchors == d.anchors
  {
    if ordered != [] {
      var n := |ordered| - 1;
      var before := HelperPhase(adjacency, ordered[..n], d);
      HelperKeeps(adjacency, ordered[..n], d);
      HelperKeepsOne(adjacency, ordered[n], before);
      KeepsTransitive(d, before, HelperPhase(adjacency, ordered, d));
    }
  }

  /** Where a helper goes: to the block of the best neighbouring anchor, else to one of its own. */
  ghost predicate HelperRight(neighbours: seq<string>, d: Detection, blocks: seq<Block>, id: string) {
    if exists b :: b in neighbours && Anchored(d, b) then
      exists a :: BestNeighbour(neighbours, d, a) && JoinsAnchor(d, a, blocks, id)
    else
      Home(blocks, "inferred:other:" + id, Other, false, id)
  }

  ghost predicate JoinsAnchor(d: Detection, a: string, blocks: seq<Block>, id: string)
    requires Anchored(d, a)
  {
    Home(blocks, AnchorBlock(d, a).id, AnchorBlock(d, a).kind, AnchorBlock(d, a).isExplicit, id)
  }

  ghost predicate AnchorsInRange(d: Detection) {
    forall a :: a in d.anchors ==> Anchored(d, a)
  }

  lemma HelperRightKept(neighbours: seq<string>, d: Detection, before: Detection, after: Detection, id: string)
    requires HelperRight(neighbours, d, before.blocks, id) && Keeps(before, after)
    ensures HelperRight(neighbours, d, after.blocks, id)
  {
    if exists b :: b in neighbours && Anchored(d, b) {
      var a :| BestNeighbour(neighbours, d, a) && JoinsAnchor(d, a, before.blocks, id);
      var b := AnchorBlock(d, a);
      HomeKept(before, after, b.id, b.kind, b.isExplicit, id);
      assert JoinsAnchor(d, a, after.blocks, id);
    } else {
      HomeKept(before, after, "inferred:other:" + id, Other, false, id);
    }
  }

  lemma NewHelper(adjacency: string -> seq<string>, c: Component, d: Detection, before: Detection)
    requires AnchorsInRange(d) && Keeps(d, before) && before.anchors == d.anchors && c.id !in before.claimed
    ensures HelperRight(adjacency(c.id), d, AddHelper(adjacency, c, before).blocks, c.id)
  {
    var neighbours, after := adjacency(c.id), AddHelper(adjacency, c, before);
    forall b | b in d.anchors ensures Anchored(before, b) && KeepsBlock(AnchorBlock(d, b), AnchorBlock(before, b)) {
      assert Anchored(d, b);
    }
    var a := OwnerIsBest(neighbours, before);
    match Owner(neighbours, before)
    case Some(k) =>
      JoinedKeeps(before.blocks[k], c.id);
      var b := AnchorBlock(d, a);
      assert IsHome(after.blocks[k], b.id, b.kind, b.isExplicit, c.id);
      assert JoinsAnchor(d, a, after.blocks, c.id);
      assert BestNeighbour(neighbours, d, a);
    case None =>
      SortedIds([c.id]);
      assert IsHome(after.blocks[|before.blocks|], "inferred:other:" + c.id, Other, false, c.id);
  }

  lemma {:induction false} HelperHome(adjacency: string -> seq<string>, ordered: seq<Component>, d: Detection,
                                      id: string)
    requires AnchorsInRange(d) && id in Known(ordered) && id !in d.claimed
    ensures HelperRight(adjacency(id), d, HelperPhase(adjacency, ordered, d).blocks, id)
  {
    var n := |ordered| - 1;
    var before := HelperPhase(adjacency, ordered[..n], d);
    KnownLast(ordered);
    HelperPhaseExtends(adjacency, ordered[..n], d);
    HelperKeeps(adjacency, ordered[..n], d);
    if id in Known(ordered[..n]) {
      HelperHome(adjacency, ordered[..n], d, id);
      HelperKeepsOne(adjacency, ordered[n], before);
      HelperRightKept(adjacency(id), d, before, HelperPhase(adjacency, ordered, d), id);
    } else {
      NewHelper(adjacency, ordered[n], d, before);
    }
  }

  // ----- the theorems -----

  lemma HomeSorted(blocks: seq<Block>, id: string, kind: Kind, given: bool, component: string)
    requires Home(blocks, id, kind, given, component)
    ensures Home(SortBy(BlockOrder(), blocks), id, kind, given, component)
  {
    var k :| 0 <= k < |blocks| && IsHome(blocks[k], id, kind, given, component);
    var sorted := SortBy(BlockOrder(), blocks);
    SortPermutes(BlockOrder(), blocks);
    MultisetMembers(sorted, blocks);
    assert blocks[k] in sorted;
    var j :| 0 <= j < |sorted| && sorted[j] == blocks[k];
    assert IsHome(sorted[j], id, kind, given, component);
  }

  /** Some explicit block names the id, or some component of the id declares a block. */
  ghost predicate Given(components: seq<Component>, explicitBlocks: seq<ExplicitBlock>, id: string) {
    Mentioned(explicitBlocks, id) || DeclaredCount(components, id) > 0
  }

  /** The components of this id that can anchor a block: of known kind, and the id neither named nor declared. */
  ghost function Anchors(kindOf: KindOf, components: seq<Component>, explicitBlocks: seq<ExplicitBlock>, id: string)
    : seq<Component>
  {
    if Given(components, explicitBlocks, id) then [] else Filter(Kinded(kindOf, id), components)
  }

  /** The anchor a stands before every other anchor among the neighbours. */
  ghost predicate BestAnchor(kindOf: KindOf, components: seq<Component>, explicitBlocks: seq<ExplicitBlock>,
                             neighbours: seq<string>, a: string)
  {
    && a in neighbours && Anchors(kindOf, components, explicitBlocks, a) != []
    && var best := Anchors(kindOf, components, explicitBlocks, a)[0];
      forall b :: b in neighbours && Anchors(kindOf, components, explicitBlocks, b) != [] ==>
        var other := Anchors(kindOf, components, explicitBlocks, b)[0];
        Prefers(kindOf(best), AnchorId(kindOf, best), kindOf(other), AnchorId(kindOf, other))
  }

  ghost function Named(components: seq<Component>, explicitBlocks: seq<ExplicitBlock>): Detection {
    ExplicitPhase(Known(components), SortBy(ExplicitOrder(), explicitBlocks))
  }

  ghost function Declared(kindOf: KindOf, components: seq<Component>, explicitBlocks: seq<ExplicitBlock>): Detection {
    AfterDeclared(kindOf, components, Named(components, explicitBlocks))
  }

  ghost function Opened(kindOf: KindOf, components: seq<Component>, explicitBlocks: seq<ExplicitBlock>): Detection {
    AnchorPhase(kindOf, SortBy(ComponentOrder(), components), Declared(kindOf, components, explicitBlocks))
  }

  lemma NamedExactly(components: seq<Component>, explicitBlocks: seq<ExplicitBlock>, id: string)
    ensures var d := Named(components, explicitBlocks);
      && d.anchors == map[] && OncePerClaim(d) && d.claimed <= Known(components)
      && (id in d.claimed <==> id in Known(components) && Mentioned(explicitBlocks, id))
  {
    ExplicitPhaseExact(Known(components), SortBy(ExplicitOrder(), explicitBlocks));
    MentionedSorted(explicitBlocks, id);
  }

  lemma DeclaredExactly(kindOf: KindOf, components: seq<Component>, explicitBlocks: seq<ExplicitBlock>, id: string)
    ensures var d := Declared(kindOf, components, explicitBlocks);
      && d.anchors == map[]
      && (id in d.claimed <==> id in Known(components) && Given(components, explicitBlocks, id))
  {
    NamedExactly(components, explicitBlocks, id);
    AfterDeclaredExact(kindOf, components, Named(components, explicitBlocks), id);
    if DeclaredCount(components, id) > 0 {
      DeclaredIsKnown(components, id);
    }
  }

  lemma KindedIsKnown(kindOf: KindOf, components: seq<Component>, id: string)
    requires Filter(Kinded(kindOf, id), components) != []
    ensures id in Known(components)
  {
    FilterMembers(Kinded(kindOf, id), components);
    assert Filter(Kinded(kindOf, id), components)[0] in components;
  }

  /** The open anchors are the ids that can anchor, each with its block. */
  lemma OpenedExactly(kindOf: KindOf, components: seq<Component>, explicitBlocks: seq<ExplicitBlock>, a: string)
    ensures var d := Opened(kindOf, components, explicitBlocks);
      var kin := Anchors(kindOf, components, explicitBlocks, a);
      && (a in d.anchors <==> kin != [])
      && (a in d.claimed <==> a in Known(components) && (Given(components, explicitBlocks, a) || kin != []))
      && (kin != [] ==> Anchored(d, a) && IsHome(AnchorBlock(d, a), AnchorId(kindOf, kin[0]), kindOf(kin[0]), false, a))
  {
    var d := Declared(kindOf, components, explicitBlocks);
    DeclaredExactly(kindOf, components, explicitBlocks, a);
    AnchorPhaseRight(kindOf, SortBy(ComponentOrder(), components), d);
    assert AnchorRight(kindOf, Filter(Kinded(kindOf, a), SortBy(ComponentOrder(), components)), d,
      Opened(kindOf, components, explicitBlocks), a);
    KindedSorted(kindOf, components, a);
    if Filter(Kinded(kindOf, a), components) != [] {
      KindedIsKnown(kindOf, components, a);
    }
  }

  /** What the anchor phase has settled stays to the end. */
  lemma OpenedStays(kindOf: KindOf, adjacency: string -> seq<string>, components: seq<Component>,
                    explicitBlocks: seq<ExplicitBlock>, id: string, kind: Kind, given: bool, component: string)
    requires Home(Opened(kindOf, components, explicitBlocks).blocks, id, kind, given, component)
    ensures Home(Detected(kindOf, adjacency, components, explicitBlocks), id, kind, given, component)
  {
    var d := Opened(kindOf, components, explicitBlocks);
    var e := HelperPhase(adjacency, SortBy(ComponentOrder(), components), d);
    HelperKeeps(adjacency, SortBy(ComponentOrder(), components), d);
    HomeKept(d, e, id, kind, given, component);
    HomeSorted(e.blocks, id, kind, given, component);
  }

  /** A component that explicit blocks name stands in the one of them with the smallest id. */
  lemma NamedHome(kindOf: KindOf, adjacency: string -> seq<string>, components: seq<Component>,
                  explicitBlocks: seq<ExplicitBlock>, id: string)
    returns (k: nat)
    requires id in Known(components) && Mentioned(explicitBlocks, id)
    ensures FirstToName(explicitBlocks, k, id)
    ensures Home(Detected(kindOf, adjacency, components, explicitBlocks), explicitBlocks[k].id, explicitBlocks[k].kind,
      true, id)
  {
    var ordered := SortBy(ExplicitOrder(), explicitBlocks);
    MentionedSorted(explicitBlocks, id);
    var j := ExplicitHome(Known(components), ordered, id);
    k := FirstInOrder(explicitBlocks, j, id);
    var e, first, second := explicitBlocks[k], Named(components, explicitBlocks),
      Declared(kindOf, components, explicitBlocks);
    var declared := Filter(Declares(first.claimed), components);
    DeclaredKeeps(kindOf, declared, SortBy(ById(), FirstSeen(DeclaredBlock(), declared)), first);
    HomeKept(first, second, e.id, e.kind, true, id);
    AnchorKeeps(kindOf, SortBy(ComponentOrder(), components), second);
    HomeKept(second, Opened(kindOf, components, explicitBlocks), e.id, e.kind, true, id);
    OpenedStays(kindOf, adjacency, components, explicitBlocks, e.id, e.kind, true, id);
  }

  /** A component that no explicit block names stands in the block it declares, whose kind is the dominant
      one of all that declare it. */
  lemma DeclaringHome(kindOf: KindOf, adjacency: string -> seq<string>, components: seq<Component>,
                      explicitBlocks: seq<ExplicitBlock>, c: Component)
    requires c in components && c.blockId != "" && !Mentioned(explicitBlocks, c.id)
    ensures Home(Detected(kindOf, adjacency, components, explicitBlocks), "inferred:" + c.blockId,
      DominantKind(kindOf, Filter(Declarers(explicitBlocks, c.blockId), components)), false, c.id)
  {
    var first, second := Named(components, explicitBlocks), Declared(kindOf, components, explicitBlocks);
    forall k | 0 <= k < |components|
      ensures components[k].id in first.claimed <==> Mentioned(explicitBlocks, components[k].id)
    {
      NamedExactly(components, explicitBlocks, components[k].id);
    }
    AfterDeclaredHome(kindOf, components, explicitBlocks, first, c);
    var kind := DominantKind(kindOf, Filter(Declarers(explicitBlocks, c.blockId), components));
    AnchorKeeps(kindOf, SortBy(ComponentOrder(), components), second);
    HomeKept(second, Opened(kindOf, components, explicitBlocks), "inferred:" + c.blockId, kind, false, c.id);
    OpenedStays(kindOf, adjacency, components, explicitBlocks, "inferred:" + c.blockId, kind, false, c.id);
  }

  /** An id neither named nor declared whose kind is known stands in a block of its own, of that kind. */
  lemma AnchorHome(kindOf: KindOf, adjacency: string -> seq<string>, components: seq<Component>,
                   explicitBlocks: seq<ExplicitBlock>, id: string)
    requires Anchors(kindOf, components, explicitBlocks, id) != []
    ensures var c := Anchors(kindOf, components, explicitBlocks, id)[0];
      Home(Detected(kindOf, adjacency, components, explicitBlocks), AnchorId(kindOf, c), kindOf(c), false, id)
  {
    var d, c := Opened(kindOf, components, explicitBlocks), Anchors(kindOf, components, explicitBlocks, id)[0];
    OpenedExactly(kindOf, components, explicitBlocks, id);
    assert IsHome(d.blocks[d.anchors[id]], AnchorId(kindOf, c), kindOf(c), false, id);
    OpenedStays(kindOf, adjacency, components, explicitBlocks, AnchorId(kindOf, c), kindOf(c), false, id);
  }

  /** Any other id stands in the block of the best anchor among its neighbours, or alone if no neighbour is one. */
  lemma OtherHome(kindOf: KindOf, adjacency: string -> seq<string>, components: seq<Component>,
                  explicitBlocks: seq<ExplicitBlock>, id: string)
    returns (a: Option<string>)
    requires id in Known(components) && !Given(components, explicitBlocks, id)
    requires Anchors(kindOf, components, explicitBlocks, id) == []
    ensures match a
      case Some(best) =>
        && BestAnchor(kindOf, components, explicitBlocks, adjacency(id), best)
        && var c := Anchors(kindOf, components, explicitBlocks, best)[0];
           Home(Detected(kindOf, adjacency, components, explicitBlocks), AnchorId(kindOf, c), kindOf(c), false, id)
      case None =>
        && (forall b :: b in adjacency(id) ==> Anchors(kindOf, components, explicitBlocks, b) == [])
        && Home(Detected(kindOf, adjacency, components, explicitBlocks), "inferred:other:" + id, Other, false, id)
  {
    var d, ordered := Opened(kindOf, components, explicitBlocks), SortBy(ComponentOrder(), components);
    var e := HelperPhase(adjacency, ordered, d);
    OpenedExactly(kindOf, components, explicitBlocks, id);
    forall b
      ensures Anchored(d, b) <==> Anchors(kindOf, components, explicitBlocks, b) != []
      ensures b in d.anchors ==> Anchored(d, b)
    {
      OpenedExactly(kindOf, components, explicitBlocks, b);
    }
    KnownSorted(components);
    HelperHome(adjacency, ordered, d, id);
    if exists b :: b in adjacency(id) && Anchored(d, b) {
      var best :| BestNeighbour(adjacency(id), d, best) && JoinsAnchor(d, best, e.blocks, id);
      a := Some(best);
      BestNeighbourMeans(kindOf, components, explicitBlocks, adjacency(id), best);
      var b := AnchorBlock(d, best);
      HomeSorted(e.blocks, b.id, b.kind, b.isExplicit, id);
    } else {
      a := None;
      HomeSorted(e.blocks, "inferred:other:" + id, Other, false, id);
    }
  }

  lemma BestNeighbourMeans(kindOf: KindOf, components: seq<Component>, explicitBlocks: seq<ExplicitBlock>,
                           neighbours: seq<string>, a: string)
    requires BestNeighbour(neighbours, Opened(kindOf, components, explicitBlocks), a)
    ensures BestAnchor(kindOf, components, explicitBlocks, neighbours, a)
    ensures var b := AnchorBlock(Opened(kindOf, components, explicitBlocks), a);
      var c := Anchors(kindOf, components, explicitBlocks, a)[0];
      b.id == AnchorId(kindOf, c) && b.kind == kindOf(c) && !b.isExplicit
  {
    var d := Opened(kindOf, components, explicitBlocks);
    OpenedExactly(kindOf, components, explicitBlocks, a);
    var best := Anchors(kindOf, components, explicitBlocks, a)[0];
    forall b | b in neighbours && Anchors(kindOf, components, explicitBlocks, b) != []
      ensures var other := Anchors(kindOf, components, explicitBlocks, b)[0];
        Prefers(kindOf(best), AnchorId(kindOf, best), kindOf(other), AnchorId(kindOf, other))
    {
      OpenedExactly(kindOf, components, explicitBlocks, b);
    }
  }

  // ----- the ids of anchors -----

  lemma KindNamesDiffer(a: Kind, b: Kind)
    requires KindName(a) == KindName(b)
    ensures a == b
  {
  }

  lemma NoColon(a: Kind)
    ensures ':' !in KindName(a)
  {
  }

  /** Two anchors share a block id only if they have the same kind and the same id. */
  lemma AnchorIdsDiffer(kindOf: KindOf, c: Component, d: Component)
    requires AnchorId(kindOf, c) == AnchorId(kindOf, d)
    ensures kindOf(c) == kindOf(d) && c.id == d.id
  {
    NoColon(kindOf(c));
    NoColon(kindOf(d));
    SplitOnce("inferred:", KindName(kindOf(c)), KindName(kindOf(d)), c.id, d.id);
    KindNamesDiffer(kindOf(c), kindOf(d));
  }

  /** After the same beginning, a text splits at its first colon in one way only. */
  lemma SplitOnce(p: string, a: string, b: string, x: string, y: string)
    requires p + a + ":" + x == p + b + ":" + y && ':' !in a && ':' !in b
    ensures a == b && x == y
  {
    var s, t := a + ":" + x, b + ":" + y;
    assert (p + a + ":" + x)[|p|..] == s && (p + b + ":" + y)[|p|..] == t;
    assert s[|a|] == ':' && t[|b|] == ':';
    assert forall i :: 0 <= i < |a| ==> s[i] == a[i];
    assert forall i :: 0 <= i < |b| ==> t[i] == b[i];
    assert s[..|a|] == a && t[..|b|] == b && s[|a| + 1..] == x && t[|b| + 1..] == y;
  }

  // ----- order -----

  /** Every block lists its components in the order of their ids. */
  ghost predicate IdsInOrder(blocks: seq<Block>) {
    forall k :: 0 <= k < |blocks| ==> Ordered(ById(), blocks[k].componentIds)
  }

  lemma IdOrderTotal()
    ensures TotalPreorder(ById())
  {
    forall a, b ensures ById()(a, b) || ById()(b, a) {
      StrAsymmetric(a, b);
    }
    forall a, b, c | ById()(a, b) && ById()(b, c) ensures ById()(a, c) {
      NotLessTransitive(a, b, c);
    }
  }

  lemma SortedInOrder(ids: seq<string>)
    ensures Ordered(ById(), SortBy(ById(), ids))
  {
    IdOrderTotal();
    SortOrdered(ById(), ids);
  }

  lemma {:induction false} ExplicitInOrder(known: set<string>, ordered: seq<ExplicitBlock>)
    ensures IdsInOrder(ExplicitPhase(known, ordered).blocks)
  {
    if ordered != [] {
      var n := |ordered| - 1;
      ExplicitInOrder(known, ordered[..n]);
      var d := ExplicitPhase(known, ordered[..n]);
      var available := Filter(Available(known, d.claimed), FirstSeen(Same(), ordered[n].componentIds));
      SortedInOrder(available);
    }
  }

  lemma {:induction false} DeclaredInOrder(kindOf: KindOf, declared: seq<Component>, blockIds: seq<string>,
                                           d: Detection)
    requires IdsInOrder(d.blocks)
    ensures IdsInOrder(DeclaredPhase(kindOf, declared, blockIds, d).blocks)
  {
    if blockIds != [] {
      var n := |blockIds| - 1;
      DeclaredInOrder(kindOf, declared, blockIds[..n], d);
      SortedInOrder(Ids(Filter(WithKey(DeclaredBlock(), blockIds[n]), declared)));
    }
  }

  lemma {:induction false} AnchorsInOrder(kindOf: KindOf, ordered: seq<Component>, d: Detection)
    requires IdsInOrder(d.blocks)
    ensures IdsInOrder(AnchorPhase(kindOf, ordered, d).blocks)
  {
    if ordered != [] {
      var n := |ordered| - 1;
      AnchorsInOrder(kindOf, ordered[..n], d);
      SortedInOrder([ordered[n].id]);
    }
  }

  lemma {:induction false} HelpersInOrder(adjacency: string -> seq<string>, ordered: seq<Component>, d: Detection)
    requires IdsInOrder(d.blocks)
    ensures IdsInOrder(HelperPhase(adjacency, ordered, d).blocks)
  {
    if ordered != [] {
      var n := |ordered| - 1;
      var c, before := ordered[n], HelperPhase(adjacency, ordered[..n], d);
      HelpersInOrder(adjacency, ordered[..n], d);
      match Owner(adjacency(c.id), before)
      case Some(k) =>
        if k < |before.blocks| {
          SortedInOrder(before.blocks[k].componentIds + [c.id]);
        }
      case None => SortedInOrder([c.id]);
    }
  }

  /** The blocks stand in the order of their ids, and the components of each in the order of theirs. */
  lemma BlocksOrdered(kindOf: KindOf, adjacency: string -> seq<string>, components: seq<Component>,
                      explicitBlocks: seq<ExplicitBlock>)
    ensures var blocks := Detected(kindOf, adjacency, components, explicitBlocks);
      && (forall i, j :: 0 <= i < j < |blocks| ==> !StrLess(blocks[j].id, blocks[i].id))
      && forall k, i, j :: 0 <= k < |blocks| && 0 <= i < j < |blocks[k].componentIds| ==>
           !StrLess(blocks[k].componentIds[j], blocks[k].componentIds[i])
  {
    var le := BlockOrder();
    forall a, b ensures le(a, b) || le(b, a) {
      StrAsymmetric(a.id, b.id);
    }
    forall a, b, c | le(a, b) && le(b, c) ensures le(a, c) {
      NotLessTransitive(a.id, b.id, c.id);
    }
    var ordered, first := SortBy(ComponentOrder(), components), Named(components, explicitBlocks);
    var declared := Filter(Declares(first.claimed), components);
    ExplicitInOrder(Known(components), SortBy(ExplicitOrder(), explicitBlocks));
    DeclaredInOrder(kindOf, declared, SortBy(ById(), FirstSeen(DeclaredBlock(), declared)), first);
    AnchorsInOrder(kindOf, ordered, Declared(kindOf, components, explicitBlocks));
    HelpersInOrder(adjacency, ordered, Opened(kindOf, components, explicitBlocks));
    var blocks := HelperPhase(adjacency, ordered, Opened(kindOf, components, explicitBlocks)).blocks;
    SortOrdered(le, blocks);
    SortPermutes(le, blocks);
    MultisetMembers(SortBy(le, blocks), blocks);
    forall k | 0 <= k < |blocks| ensures Ordered(ById(), SortBy(le, blocks)[k].componentIds) {
      assert SortBy(le, blocks)[k] in blocks;
    }
  }
}
