/** Every known component ends in exactly one block: how often each id is listed after
    the four claiming phases, and when that is once. */
module BlockPartition {
  import opened Basics
  import opened BlockDetector

  /** How often the blocks list an id. */
  function Listings(blocks: seq<Block>, id: string): nat {
    if blocks == [] then 0 else multiset(blocks[0].componentIds)[id] + Listings(blocks[1..], id)
  }

  lemma {:induction false} ListingsAppend(a: seq<Block>, b: seq<Block>, id: string)
    ensures Listings(a + b, id) == Listings(a, id) + Listings(b, id)
  {
    if a == [] {
      assert a + b == b;
    } else {
      ListingsAppend(a[1..], b, id);
      assert (a + b)[1..] == a[1..] + b;
    }
  }

  lemma ListingsSingle(a: seq<Block>, b: Block, id: string)
    ensures Listings(a + [b], id) == Listings(a, id) + multiset(b.componentIds)[id]
  {
    ListingsAppend(a, [b], id);
  }

  lemma {:induction false} ListingsUpdate(blocks: seq<Block>, k: nat, b: Block, id: string)
    requires k < |blocks|
    ensures Listings(blocks[k := b], id) ==
      Listings(blocks, id) - multiset(blocks[k].componentIds)[id] + multiset(b.componentIds)[id]
  {
    if k > 0 {
      ListingsUpdate(blocks[1..], k - 1, b, id);
      assert blocks[k := b][1..] == blocks[1..][k - 1 := b];
    }
  }

  lemma {:induction false} ListingsInsert(le: (Block, Block) -> bool, b: Block, s: seq<Block>, id: string)
    ensures Listings(Insert(le, b, s), id) == multiset(b.componentIds)[id] + Listings(s, id)
  {
    if s != [] && !le(b, s[0]) {
      ListingsInsert(le, b, s[1..], id);
      assert Insert(le, b, s)[1..] == Insert(le, b, s[1..]);
    } else {
      assert ([b] + s)[1..] == s;
    }
  }

  lemma {:induction false} ListingsSort(le: (Block, Block) -> bool, s: seq<Block>, id: string)
    ensures Listings(SortBy(le, s), id) == Listings(s, id)
  {
    if s != [] {
      ListingsSort(le, s[1..], id);
      ListingsInsert(le, s[0], SortBy(le, s[1..]), id);
    }
  }

  // ----- explicit blocks -----

  ghost predicate Mentioned(blocks: seq<ExplicitBlock>, id: string) {
    exists k :: 0 <= k < |blocks| && id in blocks[k].componentIds
  }

  /** The claimed ids are listed once, the others not at all. */
  ghost predicate OncePerClaim(d: Detection) {
    forall id :: Listings(d.blocks, id) == if id in d.claimed then 1 else 0
  }

  lemma ExplicitIdsExact(known: set<string>, claimed: set<string>, e: ExplicitBlock, id: string)
    ensures multiset(ExplicitIds(known, claimed, e))[id] ==
      if id in known && id !in claimed && id in e.componentIds then 1 else 0
    ensures id in ExplicitIds(known, claimed, e) <==> id in known && id !in claimed && id in e.componentIds
  {
    var seen := FirstSeen(Same(), e.componentIds);
    FirstSeenExact(Same(), e.componentIds);
    assert id in seen <==> id in e.componentIds by {
      if id in e.componentIds {
        var k :| 0 <= k < |e.componentIds| && e.componentIds[k] == id;
        assert Same()(e.componentIds[k]) == id;
      }
    }
    OnceEach(seen, id);
    assert id in seen <==> id in multiset(seen);
    var some := Filter(Available(known, claimed), seen);
    FilterCounts(Available(known, claimed), seen, id);
    SortPermutes(ById(), some);
    assert id in ExplicitIds(known, claimed, e) <==> id in multiset(ExplicitIds(known, claimed, e));
  }

  lemma {:induction false} ExplicitPhaseExact(known: set<string>, ordered: seq<ExplicitBlock>)
    ensures var d := ExplicitPhase(known, ordered);
      && OncePerClaim(d) && d.anchors == map[]
      && forall id :: id in d.claimed <==> id in known && Mentioned(ordered, id)
  {
    if ordered != [] {
      var n := |ordered| - 1;
      var before, after := ExplicitPhase(known, ordered[..n]), ExplicitPhase(known, ordered);
      ExplicitPhaseExact(known, ordered[..n]);
      forall id ensures Listings(after.blocks, id) == (if id in after.claimed then 1 else 0)
        && (id in after.claimed <==> id in before.claimed || (id in known && id in ordered[n].componentIds))
      {
        ExplicitIdsExact(known, before.claimed, ordered[n], id);
        ListingsSingle(before.blocks,
          Block(ordered[n].id, ordered[n].kind, ExplicitIds(known, before.claimed, ordered[n]), true), id);
      }
      forall id ensures Mentioned(ordered, id) <==> Mentioned(ordered[..n], id) || id in ordered[n].componentIds {
        MentionedLast(ordered, id);
      }
    }
  }

  lemma MentionedLast(ordered: seq<ExplicitBlock>, id: string)
    requires ordered != []
    ensures var n := |ordered| - 1; Mentioned(ordered, id) <==>
      Mentioned(ordered[..n], id) || id in ordered[n].componentIds
  {
    var n := |ordered| - 1;
    if Mentioned(ordered[..n], id) {
      var k :| 0 <= k < n && id in ordered[..n][k].componentIds;
      assert id in ordered[k].componentIds;
    }
    if Mentioned(ordered, id) && id !in ordered[n].componentIds {
      var k :| 0 <= k < |ordered| && id in ordered[k].componentIds;
      assert id in ordered[..n][k].componentIds;
    }
  }

  lemma MentionedSorted(blocks: seq<ExplicitBlock>, id: string)
    ensures Mentioned(SortBy(ExplicitOrder(), blocks), id) <==> Mentioned(blocks, id)
  {
    var sorted := SortBy(ExplicitOrder(), blocks);
    SortPermutes(ExplicitOrder(), blocks);
    MultisetMembers(sorted, blocks);
    if Mentioned(sorted, id) {
      var k :| 0 <= k < |sorted| && id in sorted[k].componentIds;
      assert sorted[k] in sorted && sorted[k] in blocks;
      var j :| 0 <= j < |blocks| && blocks[j] == sorted[k];
      assert id in blocks[j].componentIds;
    }
    if Mentioned(blocks, id) {
      var k :| 0 <= k < |blocks| && id in blocks[k].componentIds;
      assert blocks[k] in sorted;
      var j :| 0 <= j < |sorted| && sorted[j] == blocks[k];
      assert id in sorted[j].componentIds;
    }
  }

  // ----- declared blocks -----

  lemma {:induction false} FilterTwice<T>(p: T -> bool, q: T -> bool, r: T -> bool, s: seq<T>)
    requires forall k :: 0 <= k < |s| ==> r(s[k]) == (p(s[k]) && q(s[k]))
    ensures Filter(p, Filter(q, s)) == Filter(r, s)
  {
    if s != [] {
      var n := |s| - 1;
      FilterTwice(p, q, r, s[..n]);
      if q(s[n]) {
        FilterAppend(p, Filter(q, s[..n]), s[n]);
      } else {
        assert Filter(q, s) == Filter(q, s[..n]) && Filter(r, s) == Filter(r, s[..n]);
      }
    }
  }

  lemma {:induction false} FilterSum<T>(p: T -> bool, q: T -> bool, r: T -> bool, s: seq<T>)
    requires forall k :: 0 <= k < |s| ==> r(s[k]) == (p(s[k]) || q(s[k])) && !(p(s[k]) && q(s[k]))
    ensures |Filter(r, s)| == |Filter(p, s)| + |Filter(q, s)|
  {
    if s != [] {
      FilterSum(p, q, r, s[..|s| - 1]);
    }
  }

  function WithId(id: string): Component -> bool {
    (c: Component) => c.id == id
  }

  /** The components of this id that declare one of the blocks. */
  function WithIdIn(id: string, blockIds: seq<string>): Component -> bool {
    (c: Component) => c.id == id && c.blockId in blockIds
  }

  function Declaring(id: string): Component -> bool {
    (c: Component) => c.id == id && c.blockId != ""
  }

  /** How many components of this id declare a block. */
  function DeclaredCount(components: seq<Component>, id: string): nat {
    |Filter(Declaring(id), components)|
  }

  lemma {:induction false} IdsCount(members: seq<Component>, id: string)
    ensures multiset(Ids(members))[id] == |Filter(WithId(id), members)|
  {
    if members != [] {
      var n := |members| - 1;
      IdsCount(members[..n], id);
      assert Ids(members) == Ids(members[..n]) + [members[n].id];
    }
  }

  lemma GroupCount(declared: seq<Component>, blockId: string, id: string)
    ensures multiset(SortBy(ById(), Ids(Filter(WithKey(DeclaredBlock(), blockId), declared))))[id]
         == |Filter(WithIdIn(id, [blockId]), declared)|
  {
    var members := Filter(WithKey(DeclaredBlock(), blockId), declared);
    SortPermutes(ById(), Ids(members));
    IdsCount(members, id);
    FilterTwice(WithId(id), WithKey(DeclaredBlock(), blockId), WithIdIn(id, [blockId]), declared);
  }

  lemma AddDeclaredListings(kindOf: KindOf, declared: seq<Component>, blockId: string, d: Detection, id: string)
    ensures Listings(AddDeclared(kindOf, declared, blockId, d).blocks, id) ==
      Listings(d.blocks, id) + |Filter(WithIdIn(id, [blockId]), declared)|
  {
    var members := Filter(WithKey(DeclaredBlock(), blockId), declared);
    ListingsSingle(d.blocks, InferredBlock("inferred:" + blockId, DominantKind(kindOf, members), Ids(members)), id);
    GroupCount(declared, blockId, id);
  }

  lemma OneMoreBlock(declared: seq<Component>, blockIds: seq<string>, id: string)
    requires Distinct(blockIds) && blockIds != []
    ensures var n := |blockIds| - 1;
      |Filter(WithIdIn(id, blockIds), declared)|
        == |Filter(WithIdIn(id, blockIds[..n]), declared)| + |Filter(WithIdIn(id, [blockIds[n]]), declared)|
  {
    var n := |blockIds| - 1;
    assert blockIds == blockIds[..n] + [blockIds[n]] && blockIds[n] !in blockIds[..n];
    FilterSum(WithIdIn(id, blockIds[..n]), WithIdIn(id, [blockIds[n]]), WithIdIn(id, blockIds), declared);
  }

  lemma {:induction false} DeclaredPhaseListings(kindOf: KindOf, declared: seq<Component>, blockIds: seq<string>,
                                                 d: Detection, id: string)
    requires Distinct(blockIds)
    ensures Listings(DeclaredPhase(kindOf, declared, blockIds, d).blocks, id)
         == Listings(d.blocks, id) + |Filter(WithIdIn(id, blockIds), declared)|
  {
    if blockIds == [] {
      FilterNone(WithIdIn(id, []), declared);
    } else {
      var n := |blockIds| - 1;
      DeclaredPhaseListings(kindOf, declared, blockIds[..n], d, id);
      AddDeclaredListings(kindOf, declared, blockIds[n], DeclaredPhase(kindOf, declared, blockIds[..n], d), id);
      OneMoreBlock(declared, blockIds, id);
    }
  }

  lemma {:induction false} DeclaredPhaseClaims(kindOf: KindOf, declared: seq<Component>, blockIds: seq<string>,
                                               d: Detection)
    ensures var e := DeclaredPhase(kindOf, declared, blockIds, d);
      && e.anchors == d.anchors
      && forall id :: id in e.claimed <==>
           id in d.claimed || exists c :: c in declared && c.id == id && c.blockId in blockIds
  {
    if blockIds != [] {
      var n := |blockIds| - 1;
      var before, after := DeclaredPhase(kindOf, declared, blockIds[..n], d), DeclaredPhase(kindOf, declared, blockIds,
        d);
      DeclaredPhaseClaims(kindOf, declared, blockIds[..n], d);
      assert blockIds == blockIds[..n] + [blockIds[n]];
      var members := Filter(WithKey(DeclaredBlock(), blockIds[n]), declared);
      forall id ensures id in SetOf(Ids(members)) <==>
        exists c :: c in declared && c.id == id && c.blockId == blockIds[n] {
        GroupIds(declared, blockIds[n], id);
      }
    }
  }

  lemma GroupIds(declared: seq<Component>, blockId: string, id: string)
    ensures id in Ids(Filter(WithKey(DeclaredBlock(), blockId), declared)) <==>
      exists c :: c in declared && c.id == id && c.blockId == blockId
  {
    var members := Filter(WithKey(DeclaredBlock(), blockId), declared);
    FilterMembers(WithKey(DeclaredBlock(), blockId), declared);
    if id in Ids(members) {
      var k :| 0 <= k < |members| && Ids(members)[k] == id;
      assert members[k] in members;
    }
    if c :| c in declared && c.id == id && c.blockId == blockId {
      FilterCounts(WithKey(DeclaredBlock(), blockId), declared, c);
      assert c in multiset(declared) && c in multiset(members);
      var k :| 0 <= k < |members| && members[k] == c;
      assert Ids(members)[k] == id;
    }
  }

  lemma AfterDeclaredExact(kindOf: KindOf, components: seq<Component>, d: Detection, id: string)
    requires OncePerClaim(d) && d.claimed <= Known(components)
    ensures var e := AfterDeclared(kindOf, components, d);
      && e.anchors == d.anchors
      && Listings(e.blocks, id) == (if id in d.claimed then 1 else DeclaredCount(components, id))
      && (id in e.claimed <==> id in d.claimed || DeclaredCount(components, id) > 0)
  {
    var declared := Filter(Declares(d.claimed), components);
    var keys := FirstSeen(DeclaredBlock(), declared);
    var blockIds := SortBy(ById(), keys);
    FirstSeenExact(DeclaredBlock(), declared);
    SortPermutes(ById(), keys);
    MultisetMembers(blockIds, keys);
    DistinctMultiset(keys, blockIds);
    forall c | c in declared ensures c.blockId in blockIds {
      var k :| 0 <= k < |declared| && declared[k] == c;
      assert DeclaredBlock()(declared[k]) in keys;
    }
    DeclaredPhaseListings(kindOf, declared, blockIds, d, id);
    DeclaredPhaseClaims(kindOf, declared, blockIds, d);
    DeclaredHere(components, d.claimed, blockIds, id);
  }

  /** Among the unclaimed declaring components, those of an unclaimed id are all that declare. */
  lemma DeclaredHere(components: seq<Component>, claimed: set<string>, blockIds: seq<string>, id: string)
    requires forall c :: c in Filter(Declares(claimed), components) ==> c.blockId in blockIds
    ensures var declared := Filter(Declares(claimed), components);
      && |Filter(WithIdIn(id, blockIds), declared)| == (if id in claimed then 0 else DeclaredCount(components, id))
      && ((exists c :: c in declared && c.id == id && c.blockId in blockIds) <==>
           id !in claimed && DeclaredCount(components, id) > 0)
  {
    var declared := Filter(Declares(claimed), components);
    FilterMembers(Declares(claimed), components);
    assert forall k :: 0 <= k < |declared| ==> declared[k] in declared;
    if id in claimed {
      FilterNone(WithIdIn(id, blockIds), declared);
    } else {
      FilterSame(WithIdIn(id, blockIds), WithId(id), declared);
      FilterTwice(WithId(id), Declares(claimed), Declaring(id), components);
      var all := Filter(WithId(id), declared);
      FilterMembers(WithId(id), declared);
      if all != [] {
        assert all[0] in all;
      }
      if c :| c in declared && c.id == id && c.blockId in blockIds {
        FilterCounts(WithId(id), declared, c);
        assert c in multiset(declared) && c in multiset(all);
      }
    }
  }

  // ----- anchors and helpers -----

  /** Going from d to e lists exactly the newly claimed ids, once each. */
  ghost predicate Extends(d: Detection, e: Detection) {
    && d.claimed <= e.claimed
    && forall id :: Listings(e.blocks, id) == Listings(d.blocks, id) + if id in e.claimed && id !in d.claimed then 1
         else 0
  }

  lemma NewBlockExtends(d: Detection, b: Block, id: string, e: Detection)
    requires b.componentIds == [id] && id !in d.claimed && e.blocks == d.blocks + [b] && e.claimed == d.claimed + {id}
    ensures Extends(d, e)
  {
    forall x ensures Listings(e.blocks, x) == Listings(d.blocks, x) + if x == id then 1 else 0 {
      ListingsSingle(d.blocks, b, x);
    }
  }

  lemma {:induction false} AnchorPhaseExtends(kindOf: KindOf, ordered: seq<Component>, d: Detection)
    ensures Extends(d, AnchorPhase(kindOf, ordered, d))
    ensures AnchorPhase(kindOf, ordered, d).claimed <= d.claimed + Known(ordered)
  {
    if ordered != [] {
      var n := |ordered| - 1;
      var before, c := AnchorPhase(kindOf, ordered[..n], d), ordered[n];
      AnchorPhaseExtends(kindOf, ordered[..n], d);
      KnownLast(ordered);
      if c.id !in before.claimed && kindOf(c) != Other {
        var b := InferredBlock("inferred:" + KindName(kindOf(c)) + ":" + c.id, kindOf(c), [c.id]);
        assert b.componentIds == [c.id];
        NewBlockExtends(before, b, c.id, AddAnchor(kindOf, c, before));
      }
    }
  }

  lemma KnownLast(ordered: seq<Component>)
    requires ordered != []
    ensures Known(ordered) == Known(ordered[..|ordered| - 1]) + {ordered[|ordered| - 1].id}
  {
    assert ordered == ordered[..|ordered| - 1] + [ordered[|ordered| - 1]];
  }

  lemma JoinedExtends(d: Detection, k: nat, id: string, e: Detection)
    requires k < |d.blocks| && id !in d.claimed
    requires e.blocks == d.blocks[k := Joined(d.blocks[k], id)] && e.claimed == d.claimed + {id}
    ensures Extends(d, e)
  {
    SortPermutes(ById(), d.blocks[k].componentIds + [id]);
    forall x ensures Listings(e.blocks, x) == Listings(d.blocks, x) + if x == id then 1 else 0 {
      ListingsUpdate(d.blocks, k, Joined(d.blocks[k], id), x);
    }
  }

  lemma AddHelperExtends(adjacency: string -> seq<string>, c: Component, d: Detection)
    ensures Extends(d, AddHelper(adjacency, c, d)) && AddHelper(adjacency, c, d).claimed == d.claimed + {c.id}
  {
    if c.id !in d.claimed {
      OwnerInRange(adjacency(c.id), d);
      match Owner(adjacency(c.id), d)
      case Some(k) => JoinedExtends(d, k, c.id, AddHelper(adjacency, c, d));
      case None =>
        var b := InferredBlock("inferred:other:" + c.id, Other, [c.id]);
        assert b.componentIds == [c.id];
        NewBlockExtends(d, b, c.id, AddHelper(adjacency, c, d));
    }
  }

  lemma {:induction false} HelperPhaseExtends(adjacency: string -> seq<string>, ordered: seq<Component>, d: Detection)
    ensures Extends(d, HelperPhase(adjacency, ordered, d))
    ensures HelperPhase(adjacency, ordered, d).claimed == d.claimed + Known(ordered)
  {
    if ordered != [] {
      var n := |ordered| - 1;
      HelperPhaseExtends(adjacency, ordered[..n], d);
      AddHelperExtends(adjacency, ordered[n], HelperPhase(adjacency, ordered[..n], d));
      KnownLast(ordered);
    }
  }

  // ----- the theorems -----

  lemma KnownSorted(components: seq<Component>)
    ensures Known(SortBy(ComponentOrder(), components)) == Known(components)
  {
    SortPermutes(ComponentOrder(), components);
    MultisetMembers(SortBy(ComponentOrder(), components), components);
  }

  lemma DeclaredIsKnown(components: seq<Component>, id: string)
    requires DeclaredCount(components, id) > 0
    ensures id in Known(components)
  {
    FilterMembers(Declaring(id), components);
    assert Filter(Declaring(id), components)[0] in components;
  }

  /** How often an id is listed: unknown ids never; ids an explicit block mentions once;
      of the others each as often as components of that id declare a block, but at least once. */
  lemma ListedExactly(kindOf: KindOf, adjacency: string -> seq<string>, components: seq<Component>,
                      explicitBlocks: seq<ExplicitBlock>, id: string)
    ensures Listings(Detected(kindOf, adjacency, components, explicitBlocks), id) ==
      if id !in Known(components) then 0
      else if Mentioned(explicitBlocks, id) then 1
      else Max(1, DeclaredCount(components, id))
  {
    var known, ordered := Known(components), SortBy(ComponentOrder(), components);
    var first := ExplicitPhase(known, SortBy(ExplicitOrder(), explicitBlocks));
    var second := AfterDeclared(kindOf, components, first);
    var third := AnchorPhase(kindOf, ordered, second);
    var fourth := HelperPhase(adjacency, ordered, third);
    ExplicitPhaseExact(known, SortBy(ExplicitOrder(), explicitBlocks));
    MentionedSorted(explicitBlocks, id);
    AfterDeclaredExact(kindOf, components, first, id);
    KnownSorted(components);
    AnchorPhaseExtends(kindOf, ordered, second);
    HelperPhaseExtends(adjacency, ordered, third);
    ListingsSort(BlockOrder(), fourth.blocks, id);
    if DeclaredCount(components, id) > 0 {
      DeclaredIsKnown(components, id);
    }
  }

  /** Known ids are listed once, unknown ids never. */
  ghost predicate Partitions(blocks: seq<Block>, components: seq<Component>) {
    forall id :: Listings(blocks, id) == if id in Known(components) then 1 else 0
  }

  /** The detected blocks partition the components exactly when every id no explicit block
      mentions is declared by at most one component. Distinct ids are enough. */
  lemma DetectionPartitionsIff(kindOf: KindOf, adjacency: string -> seq<string>, components: seq<Component>,
                               explicitBlocks: seq<ExplicitBlock>)
    ensures Partitions(Detected(kindOf, adjacency, components, explicitBlocks), components) <==>
      forall id :: !Mentioned(explicitBlocks, id) ==> DeclaredCount(components, id) <= 1
  {
    var blocks := Detected(kindOf, adjacency, components, explicitBlocks);
    forall id ensures (Listings(blocks, id) == if id in Known(components) then 1 else 0) <==>
      Mentioned(explicitBlocks, id) || DeclaredCount(components, id) <= 1
    {
      ListedExactly(kindOf, adjacency, components, explicitBlocks, id);
      if DeclaredCount(components, id) > 0 {
        DeclaredIsKnown(components, id);
      }
    }
  }

  lemma {:induction false} ListedSomewhere(blocks: seq<Block>, id: string)
    ensures Listings(blocks, id) == 0 <==> forall k :: 0 <= k < |blocks| ==> id !in blocks[k].componentIds
  {
    if blocks != [] {
      ListedSomewhere(blocks[1..], id);
      assert id in blocks[0].componentIds <==> id in multiset(blocks[0].componentIds);
      forall k | 1 <= k < |blocks| ensures blocks[k] == blocks[1..][k - 1] {
      }
    }
  }

  /** An id listed once stands in exactly one block. */
  lemma {:induction false} OneBlock(blocks: seq<Block>, id: string) returns (k: nat)
    requires Listings(blocks, id) == 1
    ensures k < |blocks| && id in blocks[k].componentIds
    ensures forall j :: 0 <= j < |blocks| && j != k ==> id !in blocks[j].componentIds
  {
    ListedSomewhere(blocks[1..], id);
    if id in multiset(blocks[0].componentIds) {
      k := 0;
      forall j | 1 <= j < |blocks| ensures id !in blocks[j].componentIds {
        assert blocks[j] == blocks[1..][j - 1];
      }
    } else {
      var rest := OneBlock(blocks[1..], id);
      k := rest + 1;
      forall j | 0 <= j < |blocks| && j != k ensures id !in blocks[j].componentIds {
        assert j > 0 ==> blocks[j] == blocks[1..][j - 1];
      }
    }
  }
}
