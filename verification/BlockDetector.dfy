/** Grouping the components of a schematic into functional blocks: explicit blocks claim
    first, then declared ones, then anchors by kind, then helpers next to an anchor. */
module BlockDetector {
  import opened Basics

  datatype Kind =
    PowerInput | Regulation | Mcu | Memory | Crystal | Usb | MotorDriver | LedChain | Connector | Debug | Sensor
    | AnalogFrontEnd | Other

  /** `blockId` is empty where the component declares none; `text` is what its kind is read from. */
  datatype Component = Component(id: string, blockId: string, text: string)

  datatype ExplicitBlock = ExplicitBlock(id: string, kind: Kind, componentIds: seq<string>)

  datatype Block = Block(id: string, kind: Kind, componentIds: seq<string>, isExplicit: bool)

  /** `anchors` maps an anchor's id to the index of its block in `blocks`. */
  datatype Detection = Detection(blocks: seq<Block>, claimed: set<string>, anchors: map<string, nat>)

  type KindOf = Component -> Kind

  const KIND_PRIORITY: seq<Kind> :=
    [Usb, Debug, Regulation, PowerInput, Mcu, Memory, Crystal, MotorDriver, LedChain, Sensor, AnalogFrontEnd,
      Connector, Other]

  function IndexOf(kind: Kind, s: seq<Kind>): (i: nat)
    ensures i <= |s| && (i < |s| ==> s[i] == kind)
  {
    if s == [] || s[0] == kind then 0 else 1 + IndexOf(kind, s[1..])
  }

  function Priority(kind: Kind): nat {
    IndexOf(kind, KIND_PRIORITY)
  }

  function KindName(kind: Kind): string {
    match kind
    case PowerInput => "power-input"
    case Regulation => "regulation"
    case Mcu => "mcu"
    case Memory => "memory"
    case Crystal => "crystal"
    case Usb => "usb"
    case MotorDriver => "motor-driver"
    case LedChain => "led-chain"
    case Connector => "connector"
    case Debug => "debug"
    case Sensor => "sensor"
    case AnalogFrontEnd => "analog-front-end"
    case Other => "other"
  }

  function ById(): (string, string) -> bool {
    (a: string, b: string) => !StrLess(b, a)
  }

  // ----- the dominant kind of a group -----

  function KindCount(kindOf: KindOf, kind: Kind, members: seq<Component>): nat {
    |Filter(WithKey(kindOf, kind), members)|
  }

  function MoreFrequent(kindOf: KindOf, members: seq<Component>): (Kind, Kind) -> bool {
    (a: Kind, b: Kind) =>
      KindCount(kindOf, a, members) > KindCount(kindOf, b, members)
      || (KindCount(kindOf, a, members) == KindCount(kindOf, b, members) && Priority(a) <= Priority(b))
  }

  function DominantKind(kindOf: KindOf, members: seq<Component>): Kind {
    var kinds := SortBy(MoreFrequent(kindOf, members), FirstSeen(kindOf, members));
    if kinds == [] then Other else kinds[0]
  }

  method FindDominantKind(kindOf: KindOf, members: seq<Component>) returns (kind: Kind)
    ensures kind == DominantKind(kindOf, members)
  {
    var counts: map<Kind, nat>, kinds: seq<Kind> := map[], [];
    for i := 0 to |members|
      invariant kinds == FirstSeen(kindOf, members[..i])
      invariant forall k :: k in counts <==> k in kinds
      invariant forall k :: (if k in counts then counts[k] else 0) == KindCount(kindOf, k, members[..i])
    {
      assert members[..i + 1][..i] == members[..i];
      var k := kindOf(members[i]);
      if k !in counts {
        kinds := kinds + [k];
      }
      counts := counts[k := (if k in counts then counts[k] else 0) + 1];
    }
    assert members[..|members|] == members;
    SortSame(MoreFrequent(kindOf, members), ByCount(counts), kinds);
    var ordered := SortBy(ByCount(counts), kinds);
    kind := if ordered == [] then Other else ordered[0];
  }

  function ByCount(counts: map<Kind, nat>): (Kind, Kind) -> bool {
    (a: Kind, b: Kind) =>
      var m, n := if a in counts then counts[a] else 0, if b in counts then counts[b] else 0;
      m > n || (m == n && Priority(a) <= Priority(b))
  }

  lemma {:induction false} SortSame<T(!new)>(le: (T, T) -> bool, other: (T, T) -> bool, s: seq<T>)
    requires forall a, b :: le(a, b) == other(a, b)
    ensures SortBy(le, s) == SortBy(other, s)
  {
    if s != [] {
      SortSame(le, other, s[1..]);
      InsertSame(le, other, s[0], SortBy(le, s[1..]));
    }
  }

  lemma {:induction false} InsertSame<T(!new)>(le: (T, T) -> bool, other: (T, T) -> bool, x: T, s: seq<T>)
    requires forall a, b :: le(a, b) == other(a, b)
    ensures Insert(le, x, s) == Insert(other, x, s)
  {
    if s != [] {
      InsertSame(le, other, x, s[1..]);
    }
  }

  lemma MoreFrequentTotal(kindOf: KindOf, members: seq<Component>)
    ensures TotalPreorder(MoreFrequent(kindOf, members))
  {
    var le := MoreFrequent(kindOf, members);
    forall a, b ensures le(a, b) || le(b, a) {
    }
    forall a, b, c | le(a, b) && le(b, c) ensures le(a, c) {
    }
  }

  lemma KindCountZero(kindOf: KindOf, kind: Kind, members: seq<Component>)
    ensures KindCount(kindOf, kind, members) > 0 ==> kind in FirstSeen(kindOf, members)
  {
    var some := Filter(WithKey(kindOf, kind), members);
    FirstSeenExact(kindOf, members);
    FilterMembers(WithKey(kindOf, kind), members);
    if some != [] {
      assert some[0] in members;
      var i :| 0 <= i < |members| && members[i] == some[0];
      assert kindOf(members[i]) == kind;
    }
  }

  /** No kind is more frequent than the dominant one, and none as frequent comes before it
      in the priority list. */
  lemma DominantKindExact(kindOf: KindOf, members: seq<Component>, kind: Kind)
    requires members != []
    ensures var dominant := DominantKind(kindOf, members);
      && dominant in FirstSeen(kindOf, members)
      && KindCount(kindOf, kind, members) <= KindCount(kindOf, dominant, members)
      && (kind in FirstSeen(kindOf, members) &&
           KindCount(kindOf, kind, members) == KindCount(kindOf, dominant, members) ==>
            Priority(dominant) <= Priority(kind))
  {
    FirstSeenExact(kindOf, members);
    assert kindOf(members[0]) in FirstSeen(kindOf, members);
    MoreFrequentTotal(kindOf, members);
    SortedHead(MoreFrequent(kindOf, members), FirstSeen(kindOf, members), kind);
    KindCountZero(kindOf, kind, members);
  }

  // ----- explicit blocks -----

  function Known(components: seq<Component>): set<string> {
    set c | c in components :: c.id
  }

  function Same(): string -> string {
    (id: string) => id
  }

  function Available(known: set<string>, claimed: set<string>): string -> bool {
    (id: string) => id in known && id !in claimed
  }

  /** The known ids of an explicit block that nothing has claimed, each once, sorted. */
  function ExplicitIds(known: set<string>, claimed: set<string>, e: ExplicitBlock): seq<string> {
    SortBy(ById(), Filter(Available(known, claimed), FirstSeen(Same(), e.componentIds)))
  }

  function SetOf(ids: seq<string>): set<string> {
    set id | id in ids
  }

  function AddExplicit(known: set<string>, e: ExplicitBlock, d: Detection): Detection {
    var ids := ExplicitIds(known, d.claimed, e);
    if ids == [] then d
    else d.(blocks := d.blocks + [Block(e.id, e.kind, ids, true)], claimed := d.claimed + SetOf(ids))
  }

  function ExplicitPhase(known: set<string>, ordered: seq<ExplicitBlock>): Detection {
    if ordered == [] then Detection([], {}, map[])
    else AddExplicit(known, ordered[|ordered| - 1], ExplicitPhase(known, ordered[..|ordered| - 1]))
  }

  function ExplicitOrder(): (ExplicitBlock, ExplicitBlock) -> bool {
    (a: ExplicitBlock, b: ExplicitBlock) => !StrLess(b.id, a.id)
  }

  method ClaimExplicit(components: seq<Component>, explicitBlocks: seq<ExplicitBlock>) returns (d: Detection)
    ensures d == ExplicitPhase(Known(components), SortBy(ExplicitOrder(), explicitBlocks))
  {
    var known, ordered := Known(components), SortBy(ExplicitOrder(), explicitBlocks);
    var blocks: seq<Block>, claimed: set<string> := [], {};
    for i := 0 to |ordered|
      invariant Detection(blocks, claimed, map[]) == ExplicitPhase(known, ordered[..i])
    {
      assert ordered[..i + 1][..i] == ordered[..i];
      var componentIds := ExplicitIds(known, claimed, ordered[i]);
      if componentIds == [] {
        continue;
      }
      claimed := claimed + SetOf(componentIds);
      blocks := blocks + [Block(ordered[i].id, ordered[i].kind, componentIds, true)];
    }
    assert ordered[..|ordered|] == ordered;
    d := Detection(blocks, claimed, map[]);
  }

  // ----- declared blocks -----

  function Declares(claimed: set<string>): Component -> bool {
    (c: Component) => c.id !in claimed && c.blockId != ""
  }

  function DeclaredBlock(): Component -> string {
    (c: Component) => c.blockId
  }

  function Ids(members: seq<Component>): (r: seq<string>)
    ensures |r| == |members| && forall k :: 0 <= k < |r| ==> r[k] == members[k].id
  {
    seq(|members|, k requires 0 <= k < |members| => members[k].id)
  }

  function InferredBlock(id: string, kind: Kind, ids: seq<string>): Block {
    Block(id, kind, SortBy(ById(), ids), false)
  }

  function AddDeclared(kindOf: KindOf, declared: seq<Component>, blockId: string, d: Detection): Detection {
    var members := Filter(WithKey(DeclaredBlock(), blockId), declared);
    d.(blocks := d.blocks + [InferredBlock("inferred:" + blockId, DominantKind(kindOf, members), Ids(members))],
       claimed := d.claimed + SetOf(Ids(members)))
  }

  function DeclaredPhase(kindOf: KindOf, declared: seq<Component>, blockIds: seq<string>, d: Detection): Detection {
    if blockIds == [] then d
    else AddDeclared(kindOf, declared, blockIds[|blockIds| - 1],
      DeclaredPhase(kindOf, declared, blockIds[..|blockIds| - 1], d))
  }

  function AfterDeclared(kindOf: KindOf, components: seq<Component>, d: Detection): Detection {
    var declared := Filter(Declares(d.claimed), components);
    DeclaredPhase(kindOf, declared, SortBy(ById(), FirstSeen(DeclaredBlock(), declared)), d)
  }

  method ClaimDeclared(kindOf: KindOf, components: seq<Component>, start: Detection) returns (d: Detection)
    ensures d == AfterDeclared(kindOf, components, start)
  {
    var declared := Filter(Declares(start.claimed), components);
    var groups, keys := GroupBy(DeclaredBlock(), declared);
    SortPermutes(ById(), keys);
    MultisetMembers(SortBy(ById(), keys), keys);
    forall b | b in keys ensures groups[b] == Filter(WithKey(DeclaredBlock(), b), declared) {
      assert GroupIs(DeclaredBlock(), groups, b, declared);
    }
    d := ClaimGroups(kindOf, groups, SortBy(ById(), keys), declared, start);
  }

  method ClaimGroups(kindOf: KindOf, groups: map<string, seq<Component>>, ordered: seq<string>,
                     ghost declared: seq<Component>, start: Detection)
    returns (d: Detection)
    requires forall b :: b in ordered ==> b in groups && groups[b] == Filter(WithKey(DeclaredBlock(), b), declared)
    ensures d == DeclaredPhase(kindOf, declared, ordered, start)
  {
    d := start;
    for i := 0 to |ordered|
      invariant d == DeclaredPhase(kindOf, declared, ordered[..i], start)
    {
      assert ordered[..i + 1][..i] == ordered[..i] && ordered[i] in ordered;
      var members := groups[ordered[i]];
      var kind := FindDominantKind(kindOf, members);
      d := d.(claimed := d.claimed + SetOf(Ids(members)));
      d := d.(blocks := d.blocks + [InferredBlock("inferred:" + ordered[i], kind, Ids(members))]);
    }
    assert ordered[..|ordered|] == ordered;
  }

  // ----- anchors and helpers -----

  function ComponentOrder(): (Component, Component) -> bool {
    (a: Component, b: Component) => !StrLess(b.id, a.id)
  }

  function AddAnchor(kindOf: KindOf, c: Component, d: Detection): Detection {
    if c.id in d.claimed || kindOf(c) == Other then d
    else
      Detection(
        d.blocks + [InferredBlock("inferred:" + KindName(kindOf(c)) + ":" + c.id, kindOf(c), [c.id])],
        d.claimed + {c.id},
        d.anchors[c.id := |d.blocks|])
  }

  function AnchorPhase(kindOf: KindOf, ordered: seq<Component>, d: Detection): Detection {
    if ordered == [] then d
    else AddAnchor(kindOf, ordered[|ordered| - 1], AnchorPhase(kindOf, ordered[..|ordered| - 1], d))
  }

  method ClaimAnchors(kindOf: KindOf, components: seq<Component>, start: Detection) returns (d: Detection)
    ensures d == AnchorPhase(kindOf, SortBy(ComponentOrder(), components), start)
  {
    d := start;
    var ordered := SortBy(ComponentOrder(), components);
    for i := 0 to |ordered|
      invariant d == AnchorPhase(kindOf, ordered[..i], start)
    {
      assert ordered[..i + 1][..i] == ordered[..i];
      var component := ordered[i];
      if component.id in d.claimed {
        continue;
      }
      var kind := kindOf(component);
      if kind == Other {
        continue;
      }
      d := d.(anchors := d.anchors[component.id := |d.blocks|]);
      d := d.(blocks := d.blocks +
        [InferredBlock("inferred:" + KindName(kind) + ":" + component.id, kind, [component.id])]);
      d := d.(claimed := d.claimed + {component.id});
    }
    assert ordered[..|ordered|] == ordered;
  }

  /** The blocks of the anchors among the neighbours. */
  function AnchorBlocks(neighbours: seq<string>, d: Detection): (r: seq<nat>)
    ensures forall k :: 0 <= k < |r| ==> r[k] < |d.blocks|
  {
    if neighbours == [] then []
    else
      var last := neighbours[|neighbours| - 1];
      AnchorBlocks(neighbours[..|neighbours| - 1], d)
      + if last in d.anchors && d.anchors[last] < |d.blocks| then [d.anchors[last]] else []
  }

  function OwnerOrder(blocks: seq<Block>): (nat, nat) -> bool {
    (i: nat, j: nat) =>
      if i >= |blocks| || j >= |blocks| then i <= j
      else Priority(blocks[i].kind) < Priority(blocks[j].kind)
           || (Priority(blocks[i].kind) == Priority(blocks[j].kind) && !StrLess(blocks[j].id, blocks[i].id))
  }

  /** The neighbouring anchor block of the best kind, if there is one. */
  function Owner(neighbours: seq<string>, d: Detection): Option<nat> {
    var candidates := SortBy(OwnerOrder(d.blocks), AnchorBlocks(neighbours, d));
    if candidates == [] then None else Some(candidates[0])
  }

  function Joined(b: Block, id: string): Block {
    b.(componentIds := SortBy(ById(), b.componentIds + [id]))
  }

  function AddHelper(adjacency: string -> seq<string>, c: Component, d: Detection): Detection {
    if c.id in d.claimed then d
    else
      match Owner(adjacency(c.id), d)
      case Some(k) =>
        d.(blocks := if k < |d.blocks| then d.blocks[k := Joined(d.blocks[k], c.id)] else d.blocks,
          claimed := d.claimed + {c.id})
      case None =>
        d.(blocks := d.blocks + [InferredBlock("inferred:other:" + c.id, Other, [c.id])], claimed := d.claimed + {c.id})
  }

  function HelperPhase(adjacency: string -> seq<string>, ordered: seq<Component>, d: Detection): Detection {
    if ordered == [] then d
    else AddHelper(adjacency, ordered[|ordered| - 1], HelperPhase(adjacency, ordered[..|ordered| - 1], d))
  }

  lemma OwnerInRange(neighbours: seq<string>, d: Detection)
    ensures Owner(neighbours, d).Some? ==> Owner(neighbours, d).value < |d.blocks|
  {
    var found := AnchorBlocks(neighbours, d);
    SortPermutes(OwnerOrder(d.blocks), found);
    MultisetMembers(SortBy(OwnerOrder(d.blocks), found), found);
    if Owner(neighbours, d).Some? {
      assert SortBy(OwnerOrder(d.blocks), found)[0] in found;
    }
  }

  method AttachHelpers(adjacency: string -> seq<string>, components: seq<Component>, start: Detection)
    returns (d: Detection)
    ensures d == HelperPhase(adjacency, SortBy(ComponentOrder(), components), start)
  {
    d := start;
    var ordered := SortBy(ComponentOrder(), components);
    for i := 0 to |ordered|
      invariant d == HelperPhase(adjacency, ordered[..i], start)
    {
      assert ordered[..i + 1][..i] == ordered[..i];
      var component := ordered[i];
      if component.id in d.claimed {
        continue;
      }
      var owner := Owner(adjacency(component.id), d);
      OwnerInRange(adjacency(component.id), d);
      if owner.Some? {
        d := d.(blocks := d.blocks[owner.value := Joined(d.blocks[owner.value], component.id)]);
      } else {
        d := d.(blocks := d.blocks + [InferredBlock("inferred:other:" + component.id, Other, [component.id])]);
      }
      d := d.(claimed := d.claimed + {component.id});
    }
    assert ordered[..|ordered|] == ordered;
  }

  // ----- the detection -----

  function BlockOrder(): (Block, Block) -> bool {
    (a: Block, b: Block) => !StrLess(b.id, a.id)
  }

  function Detected(kindOf: KindOf, adjacency: string -> seq<string>, components: seq<Component>,
                    explicitBlocks: seq<ExplicitBlock>): seq<Block>
  {
    var claimed := ExplicitPhase(Known(components), SortBy(ExplicitOrder(), explicitBlocks));
    var declared := AfterDeclared(kindOf, components, claimed);
    var anchored := AnchorPhase(kindOf, SortBy(ComponentOrder(), components), declared);
    SortBy(BlockOrder(), HelperPhase(adjacency, SortBy(ComponentOrder(), components), anchored).blocks)
  }

  method DetectFunctionalBlocks(kindOf: KindOf, adjacency: string -> seq<string>, components: seq<Component>,
                                explicitBlocks: seq<ExplicitBlock>)
    returns (blocks: seq<Block>)
    ensures blocks == Detected(kindOf, adjacency, components, explicitBlocks)
  {
    var d := ClaimExplicit(components, explicitBlocks);
    d := ClaimDeclared(kindOf, components, d);
    d := ClaimAnchors(kindOf, components, d);
    d := AttachHelpers(adjacency, components, d);
    blocks := SortBy(BlockOrder(), d.blocks);
  }
}
