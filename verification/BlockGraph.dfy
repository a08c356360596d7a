/** Ranking of functional blocks along the signal flow: bounded relaxation with a
    clamp, and the placement order read off the ranks. */
module BlockGraph {
  import opened Basics

  datatype Kind = PowerInput | Connector | Usb | Regulation | Crystal | Mcu | Memory | Sensor
    | AnalogFrontEnd | Debug | MotorDriver | LedChain | Other

  function BaseRank(kind: Kind): nat {
    match kind
    case PowerInput => 0
    case Connector => 0
    case Usb => 1
    case Regulation => 1
    case Crystal => 2
    case Debug => 4
    case MotorDriver => 4
    case LedChain => 5
    case _ => 3
  }

  const MAX_RANK: nat := 9

  datatype Block = Block(id: string, kind: Kind, componentIds: seq<string>)

  datatype BlockEdge = BlockEdge(netId: string, source: string, target: string, directed: bool)

  type Ranks = map<string, nat>

  /** Base ranks by block id; a later block with the same id wins. */
  function BaseRanks(blocks: seq<Block>): (r: Ranks)
    ensures forall id :: id in r ==> r[id] <= 5
  {
    if blocks == [] then map[]
    else
      var last := blocks[|blocks| - 1];
      BaseRanks(blocks[..|blocks| - 1])[last.id := BaseRank(last.kind)]
  }

  lemma {:induction false} BaseRanksSize(blocks: seq<Block>)
    ensures |BaseRanks(blocks).Keys| <= |blocks|
  {
    if blocks != [] {
      var earlier, last := BaseRanks(blocks[..|blocks| - 1]), blocks[|blocks| - 1];
      BaseRanksSize(blocks[..|blocks| - 1]);
      assert BaseRanks(blocks).Keys == earlier.Keys + {last.id};
    }
  }

  // ----- walks: the reference definition of a rank -----

  ghost predicate Step(edges: seq<BlockEdge>, a: string, b: string) {
    exists e :: e in edges && e.directed && e.source == a && e.target == b
  }

  ghost predicate StepAt(edges: seq<BlockEdge>, w: seq<string>, i: int)
    requires 0 <= i < |w| - 1
  {
    Step(edges, w[i], w[i + 1])
  }

  ghost predicate Walk(ids: set<string>, edges: seq<BlockEdge>, w: seq<string>) {
    && |w| > 0
    && (forall id :: id in w ==> id in ids)
    && (forall i {:trigger StepAt(edges, w, i)} :: 0 <= i < |w| - 1 ==> StepAt(edges, w, i))
  }

  /** Base rank of the start plus the number of steps, clamped. */
  function WalkValue(base: Ranks, w: seq<string>): nat
    requires |w| > 0 && forall id :: id in w ==> id in base
  {
    Min(MAX_RANK, base[w[0]] + |w| - 1)
  }

  ghost predicate Reaches(base: Ranks, edges: seq<BlockEdge>, w: seq<string>, b: string) {
    Walk(base.Keys, edges, w) && w[|w| - 1] == b
  }

  ghost predicate Attained(base: Ranks, edges: seq<BlockEdge>, b: string, r: nat) {
    exists w :: Reaches(base, edges, w, b) && WalkValue(base, w) == r
  }

  /** `r` is the greatest value over all directed walks that end in `b`. */
  ghost predicate Longest(base: Ranks, edges: seq<BlockEdge>, b: string, r: nat) {
    && Attained(base, edges, b, r)
    && forall w :: Reaches(base, edges, w, b) ==> WalkValue(base, w) <= r
  }

  ghost predicate Acyclic(ids: set<string>, edges: seq<BlockEdge>) {
    forall w :: Walk(ids, edges, w) && |w| >= 2 ==> w[0] != w[|w| - 1]
  }

  /** `ranks` dominates every walk of at most n blocks. */
  ghost predicate Covers(base: Ranks, edges: seq<BlockEdge>, ranks: Ranks, n: nat) {
    && ranks.Keys == base.Keys
    && forall w, b :: Reaches(base, edges, w, b) && |w| <= n ==> WalkValue(base, w) <= ranks[b]
  }

  ghost predicate AllAttained(base: Ranks, edges: seq<BlockEdge>, ranks: Ranks) {
    && ranks.Keys == base.Keys
    && forall b {:trigger Attained(base, edges, b, ranks[b])} :: b in ranks ==> Attained(base, edges, b, ranks[b])
  }

  lemma SubWalk(ids: set<string>, edges: seq<BlockEdge>, w: seq<string>, i: nat, j: nat)
    requires Walk(ids, edges, w) && i < j <= |w|
    ensures Walk(ids, edges, w[i..j])
  {
    var v := w[i..j];
    forall k | 0 <= k < |v| - 1 ensures StepAt(edges, v, k) {
      assert StepAt(edges, w, i + k);
    }
  }

  /** On an acyclic graph no walk visits a block twice, so walks are short. */
  lemma AcyclicWalksAreShort(ids: set<string>, edges: seq<BlockEdge>, w: seq<string>)
    requires Acyclic(ids, edges) && Walk(ids, edges, w)
    ensures |w| <= |ids|
  {
    forall i: nat, j: nat | i < j < |w| ensures w[i] != w[j] {
      NoReturn(ids, edges, w, i, j);
    }
    DistinctBound(w, ids);
  }

  lemma NoReturn(ids: set<string>, edges: seq<BlockEdge>, w: seq<string>, i: nat, j: nat)
    requires Acyclic(ids, edges) && Walk(ids, edges, w) && i < j < |w|
    ensures w[i] != w[j]
  {
    SubWalk(ids, edges, w, i, j + 1);
    var v := w[i..j + 1];
    assert v[0] == w[i] && v[|v| - 1] == w[j];
  }

  lemma BaseAttained(base: Ranks, edges: seq<BlockEdge>)
    requires forall id :: id in base ==> base[id] <= MAX_RANK
    ensures AllAttained(base, edges, base)
  {
    forall b | b in base ensures Attained(base, edges, b, base[b]) {
      assert Reaches(base, edges, [b], b);
    }
  }

  lemma BaseCovers(base: Ranks, edges: seq<BlockEdge>)
    ensures Covers(base, edges, base, 1)
  {
    forall w, b | Reaches(base, edges, w, b) && |w| <= 1 ensures WalkValue(base, w) <= base[b] {
      assert w[0] == b;
    }
  }

  /** One relaxation of an edge keeps every rank the value of some walk. */
  lemma RelaxAttained(base: Ranks, edges: seq<BlockEdge>, ranks: Ranks, a: string, b: string)
    requires AllAttained(base, edges, ranks) && a in base && b in base && Step(edges, a, b)
    ensures Attained(base, edges, b, Min(MAX_RANK, ranks[a] + 1))
  {
    assert Attained(base, edges, a, ranks[a]);
    var w :| Reaches(base, edges, w, a) && WalkValue(base, w) == ranks[a];
    var v := w + [b];
    forall i | 0 <= i < |v| - 1 ensures StepAt(edges, v, i) {
      assert i < |w| - 1 ==> StepAt(edges, w, i);
    }
    assert Reaches(base, edges, v, b);
  }

  /** A pass that relaxed every directed edge extends the covered walks by one block. */
  lemma PassCovers(base: Ranks, edges: seq<BlockEdge>, before: Ranks, after: Ranks, n: nat)
    requires Covers(base, edges, before, n) && n >= 1 && after.Keys == base.Keys
    requires forall b :: b in base ==> before[b] <= after[b]
    requires forall a, b :: a in base && b in base && Step(edges, a, b) ==> Min(MAX_RANK, before[a] + 1) <= after[b]
    ensures Covers(base, edges, after, n + 1)
  {
    forall w, b | Reaches(base, edges, w, b) && |w| <= n + 1 ensures WalkValue(base, w) <= after[b] {
      if |w| <= n {
        assert WalkValue(base, w) <= before[b];
      } else {
        var m := |w| - 1;
        var a := w[m - 1];
        SubWalk(base.Keys, edges, w, 0, m);
        assert w[0..m][m - 1] == a;
        assert Reaches(base, edges, w[0..m], a);
        assert WalkValue(base, w[0..m]) <= before[a];
        assert StepAt(edges, w, m - 1);
      }
    }
  }

  /** Ranks no edge can raise dominate walks of every length. */
  lemma {:induction false} FixpointCovers(base: Ranks, edges: seq<BlockEdge>, ranks: Ranks, n: nat)
    requires Covers(base, edges, ranks, 1)
    requires forall a, b :: a in base && b in base && Step(edges, a, b) ==> Min(MAX_RANK, ranks[a] + 1) <= ranks[b]
    ensures Covers(base, edges, ranks, n)
  {
    if n > 1 {
      FixpointCovers(base, edges, ranks, n - 1);
      PassCovers(base, edges, ranks, ranks, n - 1);
    }
  }

  // ----- the relaxation itself -----

  ghost predicate KnownEnds(base: Ranks, edges: seq<BlockEdge>) {
    forall e :: e in edges ==> e.source in base && e.target in base
  }

  ghost predicate Between(base: Ranks, ranks: Ranks) {
    && ranks.Keys == base.Keys
    && forall b :: b in base ==> base[b] <= ranks[b] <= MAX_RANK
  }

  /** What relaxing the edges seen so far has achieved, relative to the pass start. */
  ghost predicate Relaxed(edges: seq<BlockEdge>, start: Ranks, ranks: Ranks) {
    && ranks.Keys == start.Keys
    && (forall b :: b in start ==> start[b] <= ranks[b])
    && (forall e :: e in edges && e.directed && e.source in start && e.target in start ==>
          Min(MAX_RANK, start[e.source] + 1) <= ranks[e.target])
  }

  /** One pass over all edges, updating the ranks in place as it goes. */
  method RelaxPass(base: Ranks, edges: seq<BlockEdge>, start: Ranks) returns (ranks: Ranks, changed: bool)
    requires KnownEnds(base, edges) && Between(base, start) && AllAttained(base, edges, start)
    ensures Between(base, ranks) && AllAttained(base, edges, ranks)
    ensures Relaxed(edges, start, ranks)
    ensures !changed ==> ranks == start
  {
    ranks, changed := start, false;
    for i := 0 to |edges|
      invariant Between(base, ranks) && AllAttained(base, edges, ranks)
      invariant Relaxed(edges[..i], start, ranks)
      invariant !changed ==> ranks == start
    {
      var edge := edges[i];
      assert edges[..i + 1] == edges[..i] + [edge];
      if edge.directed {
        assert edge in edges;
        assert Step(edges, edge.source, edge.target);
        RelaxAttained(base, edges, ranks, edge.source, edge.target);
        var next := Max(Max(ranks[edge.target], Min(MAX_RANK, ranks[edge.source] + 1)), base[edge.target]);
        if next != ranks[edge.target] {
          ranks := ranks[edge.target := next];
          changed := true;
        }
      }
    }
    assert edges[..|edges|] == edges;
  }

  /** At most one pass per block; stops early once a pass changes nothing. */
  method RelaxRanks(blocks: seq<Block>, edges: seq<BlockEdge>) returns (ranks: Ranks)
    requires KnownEnds(BaseRanks(blocks), edges)
    ensures Between(BaseRanks(blocks), ranks)
    ensures forall b :: b in ranks ==> Attained(BaseRanks(blocks), edges, b, ranks[b])
    ensures Covers(BaseRanks(blocks), edges, ranks, |blocks| + 1)
    ensures Acyclic(BaseRanks(blocks).Keys, edges) ==>
      forall b :: b in ranks ==> Longest(BaseRanks(blocks), edges, b, ranks[b])
  {
    var base := BaseRanks(blocks);
    ranks := base;
    BaseAttained(base, edges);
    BaseCovers(base, edges);
    BaseRanksSize(blocks);
    for pass := 0 to |blocks|
      invariant Between(base, ranks) && AllAttained(base, edges, ranks)
      invariant Covers(base, edges, ranks, pass + 1)
    {
      var start := ranks;
      var changed;
      ranks, changed := RelaxPass(base, edges, start);
      StepsRelaxed(base, edges, start, ranks);
      if !changed {
        assert forall w, b :: Reaches(base, edges, w, b) && |w| <= 1 ==> |w| <= pass + 1;
        forall n: nat ensures Covers(base, edges, ranks, n) {
          FixpointCovers(base, edges, ranks, n);
        }
        forall b | b in ranks ensures Longest(base, edges, b, ranks[b]) {
          CoveredIsLongest(base, edges, ranks, b);
        }
        return;
      }
      PassCovers(base, edges, start, ranks, pass + 1);
    }
    if Acyclic(base.Keys, edges) {
      forall b | b in ranks ensures Longest(base, edges, b, ranks[b]) {
        forall w | Reaches(base, edges, w, b) ensures WalkValue(base, w) <= ranks[b] {
          AcyclicWalksAreShort(base.Keys, edges, w);
        }
      }
    }
  }

  lemma StepsRelaxed(base: Ranks, edges: seq<BlockEdge>, start: Ranks, ranks: Ranks)
    requires Relaxed(edges, start, ranks) && start.Keys == base.Keys
    ensures forall a, b :: a in base && b in base && Step(edges, a, b) ==> Min(MAX_RANK, start[a] + 1) <= ranks[b]
  {
  }

  lemma CoveredIsLongest(base: Ranks, edges: seq<BlockEdge>, ranks: Ranks, b: string)
    requires AllAttained(base, edges, ranks) && b in ranks
    requires forall n: nat :: Covers(base, edges, ranks, n)
    ensures Longest(base, edges, b, ranks[b])
  {
    forall w | Reaches(base, edges, w, b) ensures WalkValue(base, w) <= ranks[b] {
      assert Covers(base, edges, ranks, |w|);
    }
  }

  // ----- what longest ranks give -----

  /** The order, the multiplicity and the net of the edges do not matter: ranks
      depend on the directed block pairs alone. */
  lemma EdgeOrderIrrelevant(base: Ranks, es: seq<BlockEdge>, fs: seq<BlockEdge>, b: string, r: nat, q: nat)
    requires forall x, y :: Step(es, x, y) <==> Step(fs, x, y)
    requires Longest(base, es, b, r) && Longest(base, fs, b, q)
    ensures r == q
  {
    forall w ensures Reaches(base, es, w, b) <==> Reaches(base, fs, w, b) {
      SameWalks(base.Keys, es, fs, w);
      SameWalks(base.Keys, fs, es, w);
    }
    var w :| Reaches(base, es, w, b) && WalkValue(base, w) == r;
    var v :| Reaches(base, fs, v, b) && WalkValue(base, v) == q;
  }

  lemma SameWalks(ids: set<string>, es: seq<BlockEdge>, fs: seq<BlockEdge>, w: seq<string>)
    requires forall x, y :: Step(es, x, y) <==> Step(fs, x, y)
    ensures Walk(ids, es, w) ==> Walk(ids, fs, w)
  {
    if Walk(ids, es, w) {
      forall i | 0 <= i < |w| - 1 ensures StepAt(fs, w, i) {
        assert StepAt(es, w, i);
      }
    }
  }

  /** Every directed edge climbs, up to the clamp. */
  lemma EdgesClimb(base: Ranks, edges: seq<BlockEdge>, ranks: Ranks, e: BlockEdge)
    requires KnownEnds(base, edges) && Between(base, ranks)
    requires forall b :: b in ranks ==> Longest(base, edges, b, ranks[b])
    requires e in edges && e.directed
    ensures ranks[e.target] >= Min(MAX_RANK, ranks[e.source] + 1)
  {
    assert Step(edges, e.source, e.target);
    assert Longest(base, edges, e.source, ranks[e.source]) && Longest(base, edges, e.target, ranks[e.target]);
    assert AllAttained(base, edges, ranks);
    RelaxAttained(base, edges, ranks, e.source, e.target);
    var w :| Reaches(base, edges, w, e.target) && WalkValue(base, w) == Min(MAX_RANK, ranks[e.source] + 1);
  }

  // ----- block edges from component edges -----

  datatype ComponentEdge = ComponentEdge(netId: string, source: string, target: string, directed: bool)

  function Assigned(owner: map<string, string>, components: seq<string>, id: string): (r: map<string, string>)
    ensures forall c :: c in r ==> r[c] == id || (c in owner && r[c] == owner[c])
  {
    if components == [] then owner
    else Assigned(owner, components[..|components| - 1], id)[components[|components| - 1] := id]
  }

  /** The block each component belongs to; a later block wins. */
  function BlockOf(blocks: seq<Block>): (r: map<string, string>)
    ensures forall c :: c in r ==> r[c] in BaseRanks(blocks)
  {
    if blocks == [] then map[]
    else
      var last := blocks[|blocks| - 1];
      Assigned(BlockOf(blocks[..|blocks| - 1]), last.componentIds, last.id)
  }

  /** `a` may precede `b` on an undirected connection. */
  predicate Upstream(base: Ranks, a: string, b: string)
    requires a in base && b in base
  {
    base[a] < base[b] || (base[a] == base[b] && !StrLess(b, a))
  }

  function Oriented(base: Ranks, owner: map<string, string>, e: ComponentEdge): Option<BlockEdge>
    requires forall c :: c in owner ==> owner[c] in base
  {
    if e.source !in owner || e.target !in owner then None
    else
      var s, t := owner[e.source], owner[e.target];
      if s == "" || t == "" || s == t then None
      else if !e.directed && !Upstream(base, s, t) then Some(BlockEdge(e.netId, t, s, e.directed))
      else Some(BlockEdge(e.netId, s, t, e.directed))
  }

  predicate SameKey(e: BlockEdge, f: BlockEdge) {
    e.netId == f.netId && e.source == f.source && e.target == f.target
  }

  lemma UpstreamTotal(base: Ranks, a: string, b: string)
    requires a in base && b in base
    ensures Upstream(base, a, b) || Upstream(base, b, a)
  {
    StrAsymmetric(a, b);
  }

  ghost predicate Derived(blocks: seq<Block>, links: seq<ComponentEdge>, f: BlockEdge) {
    exists e :: e in links && Oriented(BaseRanks(blocks), BlockOf(blocks), e) == Some(f)
  }

  /** Link k is the first one that yields an edge with the key of f, and it yields f. */
  predicate FirstAt(base: Ranks, owner: map<string, string>, links: seq<ComponentEdge>, k: nat, f: BlockEdge)
    requires (forall c :: c in owner ==> owner[c] in base) && k < |links|
  {
    && Oriented(base, owner, links[k]) == Some(f)
    && forall j :: 0 <= j < k && Oriented(base, owner, links[j]).Some? ==>
         !SameKey(Oriented(base, owner, links[j]).value, f)
  }

  ghost predicate FirstDerived(base: Ranks, owner: map<string, string>, links: seq<ComponentEdge>, f: BlockEdge)
    requires forall c :: c in owner ==> owner[c] in base
  {
    exists k: nat :: k < |links| && FirstAt(base, owner, links, k, f)
  }

  ghost predicate Represented(edges: seq<BlockEdge>, g: BlockEdge) {
    exists f :: f in edges && SameKey(f, g)
  }

  ghost predicate DistinctKeys(edges: seq<BlockEdge>) {
    forall i, j :: 0 <= i < j < |edges| ==> !SameKey(edges[i], edges[j])
  }

  /** Derived edges join two different known blocks; undirected ones run upstream to downstream. */
  lemma DerivedEdgesSound(blocks: seq<Block>, links: seq<ComponentEdge>, f: BlockEdge)
    requires Derived(blocks, links, f)
    ensures f.source in BaseRanks(blocks) && f.target in BaseRanks(blocks) && f.source != f.target
    ensures !f.directed ==> Upstream(BaseRanks(blocks), f.source, f.target)
  {
    var e :| e in links && Oriented(BaseRanks(blocks), BlockOf(blocks), e) == Some(f);
    UpstreamTotal(BaseRanks(blocks), f.source, f.target);
  }

  // ----- what an edge means, from the lists of the blocks -----

  /** Block k is the last one that lists the component. */
  predicate LastLists(blocks: seq<Block>, k: int, component: string) {
    0 <= k < |blocks| && component in blocks[k].componentIds
    && forall j :: k < j < |blocks| ==> component !in blocks[j].componentIds
  }

  ghost predicate Belongs(blocks: seq<Block>, component: string, id: string) {
    exists k :: LastLists(blocks, k, component) && blocks[k].id == id
  }

  lemma {:induction false} AssignedExact(owner: map<string, string>, components: seq<string>, id: string, c: string)
    ensures var r := Assigned(owner, components, id);
      && (c in r <==> c in components || c in owner)
      && (c in r ==> r[c] == if c in components then id else owner[c])
  {
    if components != [] {
      AssignedExact(owner, components[..|components| - 1], id, c);
      assert components == components[..|components| - 1] + [components[|components| - 1]];
    }
  }

  lemma {:induction false} OwnerExact(blocks: seq<Block>, c: string, id: string)
    ensures (c in BlockOf(blocks) && BlockOf(blocks)[c] == id) <==> Belongs(blocks, c, id)
  {
    if blocks != [] {
      var n := |blocks| - 1;
      OwnerExact(blocks[..n], c, id);
      AssignedExact(BlockOf(blocks[..n]), blocks[n].componentIds, blocks[n].id, c);
      if c in blocks[n].componentIds {
        assert LastLists(blocks, n, c);
      } else {
        forall k ensures LastLists(blocks, k, c) <==> LastLists(blocks[..n], k, c) {
        }
      }
    }
  }

  /** Block k is the last one with the id. */
  predicate LastWith(blocks: seq<Block>, k: int, id: string) {
    0 <= k < |blocks| && blocks[k].id == id && forall j :: k < j < |blocks| ==> blocks[j].id != id
  }

  ghost predicate HasBaseRank(blocks: seq<Block>, id: string, r: nat) {
    exists k :: LastWith(blocks, k, id) && BaseRank(blocks[k].kind) == r
  }

  lemma {:induction false} BaseRankExact(blocks: seq<Block>, id: string, r: nat)
    ensures (id in BaseRanks(blocks) && BaseRanks(blocks)[id] == r) <==> HasBaseRank(blocks, id, r)
  {
    if blocks != [] {
      var n := |blocks| - 1;
      BaseRankExact(blocks[..n], id, r);
      if blocks[n].id == id {
        assert LastWith(blocks, n, id);
      } else {
        forall k ensures LastWith(blocks, k, id) <==> LastWith(blocks[..n], k, id) {
        }
      }
    }
  }

  /** The signal flows from block s to block t, as far as their kinds tell; the id decides a tie. */
  ghost predicate FlowsTo(blocks: seq<Block>, s: string, t: string) {
    exists a: nat, b: nat :: HasBaseRank(blocks, s, a) && HasBaseRank(blocks, t, b) &&
      (a < b || (a == b && !StrLess(t, s)))
  }

  /** A directed link runs from the block of its source to that of its target. An undirected one joins the
      same two blocks in the order of the flow. */
  ghost predicate Joins(blocks: seq<Block>, e: ComponentEdge, s: string, t: string) {
    s != "" && t != "" && s != t &&
    if e.directed then Belongs(blocks, e.source, s) && Belongs(blocks, e.target, t)
    else
      FlowsTo(blocks, s, t) &&
      ((Belongs(blocks, e.source, s) && Belongs(blocks, e.target, t))
       || (Belongs(blocks, e.source, t) && Belongs(blocks, e.target, s)))
  }

  lemma FlowsToExact(blocks: seq<Block>, s: string, t: string)
    ensures FlowsTo(blocks, s, t) <==>
      s in BaseRanks(blocks) && t in BaseRanks(blocks) && Upstream(BaseRanks(blocks), s, t)
  {
    var base := BaseRanks(blocks);
    forall r: nat ensures (s in base && base[s] == r) <==> HasBaseRank(blocks, s, r) {
      BaseRankExact(blocks, s, r);
    }
    forall r: nat ensures (t in base && base[t] == r) <==> HasBaseRank(blocks, t, r) {
      BaseRankExact(blocks, t, r);
    }
    if s in base && t in base && Upstream(base, s, t) {
      assert HasBaseRank(blocks, s, base[s]) && HasBaseRank(blocks, t, base[t]);
    }
  }

  /** Which edge a link gives, in terms of the blocks that list its ends. */
  lemma OrientedExact(blocks: seq<Block>, e: ComponentEdge, f: BlockEdge)
    ensures Oriented(BaseRanks(blocks), BlockOf(blocks), e) == Some(f) <==>
      f.netId == e.netId && f.directed == e.directed && Joins(blocks, e, f.source, f.target)
  {
    OwnerExact(blocks, e.source, f.source);
    OwnerExact(blocks, e.source, f.target);
    OwnerExact(blocks, e.target, f.source);
    OwnerExact(blocks, e.target, f.target);
    FlowsToExact(blocks, f.source, f.target);
    if f.source in BaseRanks(blocks) && f.target in BaseRanks(blocks) {
      UpstreamTotal(BaseRanks(blocks), f.source, f.target);
      UpstreamOneWay(BaseRanks(blocks), f.source, f.target);
    }
  }

  lemma UpstreamOneWay(base: Ranks, a: string, b: string)
    requires a in base && b in base
    ensures Upstream(base, a, b) && Upstream(base, b, a) ==> a == b
  {
    StrTotal(a, b);
  }

  /** Link k is the first link of the net that joins the two blocks in this direction, and has the edge's flag. */
  ghost predicate FirstLink(blocks: seq<Block>, links: seq<ComponentEdge>, k: nat, f: BlockEdge)
    requires k < |links|
  {
    && links[k].netId == f.netId && links[k].directed == f.directed && Joins(blocks, links[k], f.source, f.target)
    && forall j :: 0 <= j < k ==> !(links[j].netId == f.netId && Joins(blocks, links[j], f.source, f.target))
  }

  ghost predicate LinkEdge(blocks: seq<Block>, links: seq<ComponentEdge>, f: BlockEdge) {
    exists k: nat :: k < |links| && FirstLink(blocks, links, k, f)
  }

  lemma FirstLinkExact(blocks: seq<Block>, links: seq<ComponentEdge>, k: nat, f: BlockEdge)
    requires k < |links|
    ensures FirstAt(BaseRanks(blocks), BlockOf(blocks), links, k, f) <==> FirstLink(blocks, links, k, f)
  {
    var base, owner := BaseRanks(blocks), BlockOf(blocks);
    OrientedExact(blocks, links[k], f);
    forall j | 0 <= j < k
      ensures (Oriented(base, owner, links[j]).Some? && SameKey(Oriented(base, owner, links[j]).value, f)) <==>
        links[j].netId == f.netId && Joins(blocks, links[j], f.source, f.target)
    {
      OrientedExact(blocks, links[j], f.(directed := links[j].directed));
    }
  }

  /** The derived edges, exactly: one for each net and ordered pair of blocks some link of the net joins. */
  lemma DerivedIff(blocks: seq<Block>, links: seq<ComponentEdge>, f: BlockEdge)
    ensures FirstDerived(BaseRanks(blocks), BlockOf(blocks), links, f) <==> LinkEdge(blocks, links, f)
  {
    forall k: nat | k < |links|
      ensures FirstAt(BaseRanks(blocks), BlockOf(blocks), links, k, f) <==> FirstLink(blocks, links, k, f)
    {
      FirstLinkExact(blocks, links, k, f);
    }
  }

  method AddBlockEdge(edges: seq<BlockEdge>, edge: BlockEdge) returns (next: seq<BlockEdge>)
    requires DistinctKeys(edges)
    ensures DistinctKeys(next)
    ensures next == if Represented(edges, edge) then edges else edges + [edge]
  {
    if forall k :: 0 <= k < |edges| ==> !SameKey(edges[k], edge) {
      next := edges + [edge];
    } else {
      var k :| 0 <= k < |edges| && SameKey(edges[k], edge);
      assert edges[k] in edges;
      next := edges;
    }
  }

  /** One block edge per net and ordered block pair, taken from the first link that
      yields one; edges inside a block disappear. */
  method DeriveBlockEdges(blocks: seq<Block>, links: seq<ComponentEdge>) returns (edges: seq<BlockEdge>)
    ensures KnownEnds(BaseRanks(blocks), edges) && DistinctKeys(edges)
    ensures forall f :: f in edges <==> LinkEdge(blocks, links, f)
    ensures forall e, s, t :: e in links && Joins(blocks, e, s, t) ==>
      Represented(edges, BlockEdge(e.netId, s, t, e.directed))
    ensures forall f :: f in edges <==> FirstDerived(BaseRanks(blocks), BlockOf(blocks), links, f)
    ensures forall f :: f in edges ==> Derived(blocks, links, f)
  {
    var base, owner := BaseRanks(blocks), BlockOf(blocks);
    edges := [];
    for i := 0 to |links|
      invariant DistinctKeys(edges)
      invariant AllFirst(base, owner, links[..i], edges)
    {
      var edge := Oriented(base, owner, links[i]);
      assert links[..i + 1] == links[..i] + [links[i]];
      LinkStep(base, owner, links[..i], links[i], edges);
      if edge.Some? {
        edges := AddBlockEdge(edges, edge.value);
      }
    }
    assert links[..|links|] == links;
    DerivedExact(blocks, links, edges);
    EdgesMean(blocks, links, edges);
  }

  lemma EdgesMean(blocks: seq<Block>, links: seq<ComponentEdge>, edges: seq<BlockEdge>)
    requires AllFirst(BaseRanks(blocks), BlockOf(blocks), links, edges)
    requires forall e :: e in links && Oriented(BaseRanks(blocks), BlockOf(blocks), e).Some? ==>
      Represented(edges, Oriented(BaseRanks(blocks), BlockOf(blocks), e).value)
    ensures forall f :: f in edges <==> LinkEdge(blocks, links, f)
    ensures forall e, s, t :: e in links && Joins(blocks, e, s, t) ==>
      Represented(edges, BlockEdge(e.netId, s, t, e.directed))
  {
    forall f ensures f in edges <==> LinkEdge(blocks, links, f) {
      DerivedIff(blocks, links, f);
    }
    forall e, s, t | e in links && Joins(blocks, e, s, t)
      ensures Represented(edges, BlockEdge(e.netId, s, t, e.directed))
    {
      OrientedExact(blocks, e, BlockEdge(e.netId, s, t, e.directed));
    }
  }

  lemma DerivedExact(blocks: seq<Block>, links: seq<ComponentEdge>, edges: seq<BlockEdge>)
    requires AllFirst(BaseRanks(blocks), BlockOf(blocks), links, edges)
    ensures KnownEnds(BaseRanks(blocks), edges)
    ensures forall f :: f in edges ==> Derived(blocks, links, f)
    ensures forall e :: e in links && Oriented(BaseRanks(blocks), BlockOf(blocks), e).Some? ==>
      Represented(edges, Oriented(BaseRanks(blocks), BlockOf(blocks), e).value)
  {
    var base, owner := BaseRanks(blocks), BlockOf(blocks);
    forall f | f in edges ensures Derived(blocks, links, f) && f.source in base && f.target in base {
      var k: nat :| k < |links| && FirstAt(base, owner, links, k, f);
      assert links[k] in links;
      DerivedEdgesSound(blocks, links, f);
    }
    forall e | e in links && Oriented(base, owner, e).Some? ensures Represented(edges, Oriented(base, owner, e).value) {
      var k: nat :| k < |links| && links[k] == e;
      var f := KeyTaken(base, owner, links, k, Oriented(base, owner, e).value);
    }
  }

  ghost predicate AllFirst(base: Ranks, owner: map<string, string>, links: seq<ComponentEdge>, edges: seq<BlockEdge>)
    requires forall c :: c in owner ==> owner[c] in base
  {
    forall f :: f in edges <==> FirstDerived(base, owner, links, f)
  }

  lemma FirstExtends(base: Ranks, owner: map<string, string>, links: seq<ComponentEdge>, next: ComponentEdge,
                     f: BlockEdge)
    requires forall c :: c in owner ==> owner[c] in base
    ensures FirstDerived(base, owner, links + [next], f) <==>
      FirstDerived(base, owner, links, f) || FirstAt(base, owner, links + [next], |links|, f)
  {
    if FirstDerived(base, owner, links, f) {
      var k: nat :| k < |links| && FirstAt(base, owner, links, k, f);
      assert FirstAt(base, owner, links + [next], k, f);
    }
    if FirstDerived(base, owner, links + [next], f) {
      var k: nat :| k < |links| + 1 && FirstAt(base, owner, links + [next], k, f);
      assert forall j :: 0 <= j < |links| ==> links[j] == (links + [next])[j];
      assert k < |links| ==> FirstAt(base, owner, links, k, f);
    }
  }

  /** A key that occurs has a first link. */
  lemma {:induction false} KeyTaken(base: Ranks, owner: map<string, string>, links: seq<ComponentEdge>, k: nat,
                                    g: BlockEdge)
    returns (f: BlockEdge)
    requires (forall c :: c in owner ==> owner[c] in base) && k < |links|
    requires Oriented(base, owner, links[k]).Some? && SameKey(Oriented(base, owner, links[k]).value, g)
    ensures FirstDerived(base, owner, links, f) && SameKey(f, g)
    decreases k
  {
    f := Oriented(base, owner, links[k]).value;
    if !FirstAt(base, owner, links, k, f) {
      var j: nat :| j < k && Oriented(base, owner, links[j]).Some? && SameKey(Oriented(base, owner, links[j]).value, f);
      f := KeyTaken(base, owner, links, j, g);
    }
  }

  /** The edge of the next link is new exactly when no edge so far has its key. */
  lemma LinkStep(base: Ranks, owner: map<string, string>, links: seq<ComponentEdge>, next: ComponentEdge,
                 edges: seq<BlockEdge>)
    requires (forall c :: c in owner ==> owner[c] in base) && AllFirst(base, owner, links, edges)
    ensures var g := Oriented(base, owner, next);
      AllFirst(base, owner, links + [next], if g.None? || Represented(edges, g.value) then edges else edges + [g.value])
  {
    var g := Oriented(base, owner, next);
    forall f { FirstExtends(base, owner, links, next, f); }
    if g.Some? {
      KeyFree(base, owner, links, next, edges, g.value);
    }
  }

  lemma KeyFree(base: Ranks, owner: map<string, string>, links: seq<ComponentEdge>, next: ComponentEdge,
                edges: seq<BlockEdge>, g: BlockEdge)
    requires (forall c :: c in owner ==> owner[c] in base) && AllFirst(base, owner, links, edges)
    requires Oriented(base, owner, next) == Some(g)
    ensures FirstAt(base, owner, links + [next], |links|, g) <==> !Represented(edges, g)
  {
    var all := links + [next];
    assert forall j :: 0 <= j < |links| ==> all[j] == links[j];
    if k: nat :|
      k < |links| && Oriented(base, owner, links[k]).Some? && SameKey(Oriented(base, owner, links[k]).value, g)
    {
      var f := KeyTaken(base, owner, links, k, g);
      assert f in edges;
    } else {
      forall f | f in edges ensures !SameKey(f, g) {
        var k: nat :| k < |links| && FirstAt(base, owner, links, k, f);
      }
    }
  }

  // ----- placement order -----

  datatype RankedBlock = RankedBlock(id: string, rank: nat)

  predicate NotAfter(a: RankedBlock, b: RankedBlock) {
    a.rank < b.rank || (a.rank == b.rank && !StrLess(b.id, a.id))
  }

  function OrderBlocksForPlacement(nodes: seq<RankedBlock>): seq<RankedBlock> {
    SortBy(NotAfter, nodes)
  }

  lemma NotAfterIsPreorder()
    ensures TotalPreorder<RankedBlock>(NotAfter)
  {
    forall a: RankedBlock, b: RankedBlock ensures NotAfter(a, b) || NotAfter(b, a) {
      StrAsymmetric(a.id, b.id);
    }
    forall a: RankedBlock, b: RankedBlock, c: RankedBlock | NotAfter(a, b) && NotAfter(b, c) ensures NotAfter(a, c) {
      NotLessTransitive(a.id, b.id, c.id);
    }
  }

  /** The order is a permutation of the blocks. */
  lemma OrderPermutes(nodes: seq<RankedBlock>)
    ensures multiset(OrderBlocksForPlacement(nodes)) == multiset(nodes)
  {
    SortPermutes(NotAfter, nodes);
  }

  /** Of any two blocks the one with the smaller rank comes first, on a tie the one with
      the smaller id. */
  lemma OrderExact(nodes: seq<RankedBlock>, i: nat, j: nat)
    requires i < |nodes| && j < |nodes| && OrderBlocksForPlacement(nodes)[i].id != OrderBlocksForPlacement(nodes)[j].id
    ensures var order := OrderBlocksForPlacement(nodes);
      i < j <==> order[i].rank < order[j].rank || (order[i].rank == order[j].rank && StrLess(order[i].id, order[j].id))
  {
    var order := OrderBlocksForPlacement(nodes);
    NotAfterIsPreorder();
    SortOrdered(NotAfter, nodes);
    StrTotal(order[i].id, order[j].id);
    StrAsymmetric(order[i].id, order[j].id);
    if i < j {
      assert NotAfter(order[i], order[j]);
    } else if j < i {
      assert NotAfter(order[j], order[i]);
    }
  }

  /** For an edge that climbs up to the clamp, the source stands before the target
      exactly when its rank is below the clamp or its id is the smaller one. */
  lemma OrderFollowsEdges(nodes: seq<RankedBlock>, i: nat, j: nat)
    requires i < |nodes| && j < |nodes|
    requires var order := OrderBlocksForPlacement(nodes);
      && order[i].id != order[j].id
      && order[i].rank <= MAX_RANK && order[j].rank <= MAX_RANK
      && order[j].rank >= Min(MAX_RANK, order[i].rank + 1)
    ensures var order := OrderBlocksForPlacement(nodes);
      i < j <==> order[i].rank < MAX_RANK || StrLess(order[i].id, order[j].id)
  {
    OrderExact(nodes, i, j);
  }

  function RankedNodes(ids: seq<string>, ranks: Ranks): seq<RankedBlock>
    requires forall id :: id in ids ==> id in ranks
  {
    seq(|ids|, i requires 0 <= i < |ids| => RankedBlock(ids[i], ranks[ids[i]]))
  }

  lemma OrderedRank(ids: seq<string>, ranks: Ranks, i: nat)
    requires (forall id :: id in ids ==> id in ranks) && i < |ids|
    ensures var n := OrderBlocksForPlacement(RankedNodes(ids, ranks))[i];
      n.id in ranks && n.rank == ranks[n.id]
  {
    var nodes := RankedNodes(ids, ranks);
    var order := OrderBlocksForPlacement(nodes);
    OrderPermutes(nodes);
    MultisetMembers(order, nodes);
    assert order[i] in nodes;
  }

  /** Main result on acyclic graphs: the placement order is topological wherever
      the source is below the clamp, and nowhere else unless ids happen to agree. */
  lemma PlacementIsTopological(base: Ranks, edges: seq<BlockEdge>, ranks: Ranks, ids: seq<string>, e: BlockEdge,
                               i: nat, j: nat)
    requires KnownEnds(base, edges) && Between(base, ranks)
    requires forall b :: b in ranks ==> Longest(base, edges, b, ranks[b])
    requires forall id :: id in ids ==> id in ranks
    requires e in edges && e.directed && e.source != e.target
    requires i < |ids| && j < |ids|
    requires var order := OrderBlocksForPlacement(RankedNodes(ids, ranks));
      order[i].id == e.source && order[j].id == e.target
    ensures i < j <==> ranks[e.source] < MAX_RANK || StrLess(e.source, e.target)
  {
    OrderedRank(ids, ranks, i);
    OrderedRank(ids, ranks, j);
    EdgesClimb(base, edges, ranks, e);
    OrderFollowsEdges(RankedNodes(ids, ranks), i, j);
  }

  // ----- from component edges to the placement order -----

  function EdgeId(e: BlockEdge): string {
    e.netId + ":" + e.source + ":" + e.target
  }

  predicate ByEdgeId(a: BlockEdge, b: BlockEdge) {
    !StrLess(EdgeId(b), EdgeId(a))
  }

  predicate ByBlockId(a: Block, b: Block) {
    !StrLess(b.id, a.id)
  }

  function Ids(blocks: seq<Block>): (r: seq<string>)
    ensures |r| == |blocks| && forall i :: 0 <= i < |r| ==> r[i] == blocks[i].id
  {
    seq(|blocks|, i requires 0 <= i < |blocks| => blocks[i].id)
  }

  lemma {:induction false} BlockRanked(blocks: seq<Block>, k: nat)
    requires k < |blocks|
    ensures blocks[k].id in BaseRanks(blocks)
  {
    if k < |blocks| - 1 {
      BlockRanked(blocks[..|blocks| - 1], k);
    }
  }

  /** The blocks of an edge stand in its direction, except where the clamp and the ids
      say otherwise. */
  ghost predicate Follows(order: seq<RankedBlock>, e: BlockEdge) {
    forall i, j :: 0 <= i < |order| && 0 <= j < |order| && order[i].id == e.source && order[j].id == e.target ==>
      (i < j <==> order[i].rank < MAX_RANK || StrLess(e.source, e.target))
  }

  /** Every listed block has at least the rank of each walk to it of at most n blocks. */
  ghost predicate NodesCover(base: Ranks, edges: seq<BlockEdge>, nodes: seq<RankedBlock>, n: nat) {
    forall k, w :: 0 <= k < |nodes| && Reaches(base, edges, w, nodes[k].id) && |w| <= n ==>
      WalkValue(base, w) <= nodes[k].rank
  }

  /** Derivation, sorting by id, relaxation and order in one: whatever the links are, the
      order holds every block with a rank that some walk attains and no walk of at most
      one block more than there are exceeds, by rank and then by id. If the edges that survive
      derivation have no directed cycle, the ranks are those of the longest walks and the
      order follows every directed edge. */
  method PlaceBlocks(blocks: seq<Block>, links: seq<ComponentEdge>)
    returns (edges: seq<BlockEdge>, order: seq<RankedBlock>)
    ensures forall f :: f in edges <==> LinkEdge(blocks, links, f)
    ensures forall i, j :: 0 <= i < j < |edges| ==> !StrLess(
      edges[j].netId + ":" + edges[j].source + ":" + edges[j].target,
      edges[i].netId + ":" + edges[i].source + ":" + edges[i].target)
    ensures |order| == |blocks|
    ensures forall b :: b in blocks ==> exists n :: n in order && n.id == b.id
    ensures forall n :: n in order ==> n.id in BaseRanks(blocks) && Attained(BaseRanks(blocks), edges, n.id, n.rank)
    ensures NodesCover(BaseRanks(blocks), edges, order, |blocks| + 1)
    ensures forall i, j :: 0 <= i < j < |order| ==>
      order[i].rank < order[j].rank || (order[i].rank == order[j].rank && !StrLess(order[j].id, order[i].id))
    ensures Acyclic(BaseRanks(blocks).Keys, edges) ==>
      forall n :: n in order ==> Longest(BaseRanks(blocks), edges, n.id, n.rank)
    ensures Acyclic(BaseRanks(blocks).Keys, edges) ==> forall e :: e in edges && e.directed ==> Follows(order, e)
  {
    edges := SortedBlockEdges(blocks, links);
    var ranks := RelaxRanks(blocks, edges);
    var sorted := SortBy(ByBlockId, blocks);
    AllRanked(blocks, sorted);
    order := OrderBlocksForPlacement(RankedNodes(Ids(sorted), ranks));
    AllListed(blocks, sorted, RankedNodes(Ids(sorted), ranks));
    PlacedRanks(BaseRanks(blocks), edges, ranks, Ids(sorted));
    PlacedCover(BaseRanks(blocks), edges, ranks, Ids(sorted), |blocks| + 1);
    PlacedInOrder(RankedNodes(Ids(sorted), ranks));
    if Acyclic(BaseRanks(blocks).Keys, edges) {
      AllFollowed(blocks, links, edges, ranks, Ids(sorted));
    }
  }

  method SortedBlockEdges(blocks: seq<Block>, links: seq<ComponentEdge>) returns (edges: seq<BlockEdge>)
    ensures KnownEnds(BaseRanks(blocks), edges)
    ensures forall f :: f in edges <==> LinkEdge(blocks, links, f)
    ensures forall f :: f in edges ==> Derived(blocks, links, f)
    ensures Ordered(ByEdgeId, edges)
  {
    var derived := DeriveBlockEdges(blocks, links);
    edges := SortBy(ByEdgeId, derived);
    SortPermutes(ByEdgeId, derived);
    MultisetMembers(edges, derived);
    EdgeIdPreorder();
    SortOrdered(ByEdgeId, derived);
  }

  lemma EdgeIdPreorder()
    ensures TotalPreorder<BlockEdge>(ByEdgeId)
  {
    forall a: BlockEdge, b: BlockEdge ensures ByEdgeId(a, b) || ByEdgeId(b, a) {
      StrAsymmetric(EdgeId(a), EdgeId(b));
    }
    forall a: BlockEdge, b: BlockEdge, c: BlockEdge | ByEdgeId(a, b) && ByEdgeId(b, c) ensures ByEdgeId(a, c) {
      NotLessTransitive(EdgeId(a), EdgeId(b), EdgeId(c));
    }
  }

  lemma PlacedRanks(base: Ranks, edges: seq<BlockEdge>, ranks: Ranks, ids: seq<string>)
    requires (forall id :: id in ids ==> id in ranks) && ranks.Keys == base.Keys
    requires forall b :: b in ranks ==> Attained(base, edges, b, ranks[b])
    ensures forall n :: n in OrderBlocksForPlacement(RankedNodes(ids, ranks)) ==>
      n.id in base && Attained(base, edges, n.id, n.rank)
    ensures (forall b :: b in ranks ==> Longest(base, edges, b, ranks[b])) ==>
      forall n :: n in OrderBlocksForPlacement(RankedNodes(ids, ranks)) ==> Longest(base, edges, n.id, n.rank)
  {
    ListedRanks(ids, ranks);
  }

  lemma PlacedCover(base: Ranks, edges: seq<BlockEdge>, ranks: Ranks, ids: seq<string>, n: nat)
    requires (forall id :: id in ids ==> id in ranks) && Covers(base, edges, ranks, n)
    ensures NodesCover(base, edges, OrderBlocksForPlacement(RankedNodes(ids, ranks)), n)
  {
    var order := OrderBlocksForPlacement(RankedNodes(ids, ranks));
    ListedRanks(ids, ranks);
    forall k, w | 0 <= k < |order| && Reaches(base, edges, w, order[k].id) && |w| <= n
      ensures WalkValue(base, w) <= order[k].rank
    {
      assert order[k] in order;
    }
  }

  lemma PlacedInOrder(nodes: seq<RankedBlock>)
    ensures var order := OrderBlocksForPlacement(nodes);
      forall i, j :: 0 <= i < j < |order| ==>
        order[i].rank < order[j].rank || (order[i].rank == order[j].rank && !StrLess(order[j].id, order[i].id))
  {
    NotAfterIsPreorder();
    SortOrdered(NotAfter, nodes);
  }

  lemma AllFollowed(blocks: seq<Block>, links: seq<ComponentEdge>, edges: seq<BlockEdge>, ranks: Ranks,
                    ids: seq<string>)
    requires KnownEnds(BaseRanks(blocks), edges) && Between(BaseRanks(blocks), ranks)
    requires forall b :: b in ranks ==> Longest(BaseRanks(blocks), edges, b, ranks[b])
    requires (forall id :: id in ids ==> id in ranks) && forall e :: e in edges ==> Derived(blocks, links, e)
    ensures forall e :: e in edges && e.directed ==> Follows(OrderBlocksForPlacement(RankedNodes(ids, ranks)), e)
  {
    forall e | e in edges && e.directed ensures Follows(OrderBlocksForPlacement(RankedNodes(ids, ranks)), e) {
      DerivedEdgesSound(blocks, links, e);
      EdgeFollowed(BaseRanks(blocks), edges, ranks, ids, e);
    }
  }

  lemma AllRanked(blocks: seq<Block>, sorted: seq<Block>)
    requires sorted == SortBy(ByBlockId, blocks)
    ensures forall id :: id in Ids(sorted) ==> id in BaseRanks(blocks)
  {
    SortPermutes(ByBlockId, blocks);
    MultisetMembers(sorted, blocks);
    forall i | 0 <= i < |sorted| ensures sorted[i].id in BaseRanks(blocks) {
      assert sorted[i] in blocks;
      var k :| 0 <= k < |blocks| && blocks[k] == sorted[i];
      BlockRanked(blocks, k);
    }
  }

  lemma AllListed(blocks: seq<Block>, sorted: seq<Block>, nodes: seq<RankedBlock>)
    requires sorted == SortBy(ByBlockId, blocks)
    requires |nodes| == |sorted| && forall i :: 0 <= i < |nodes| ==> nodes[i].id == sorted[i].id
    ensures |OrderBlocksForPlacement(nodes)| == |blocks|
    ensures forall b :: b in blocks ==> exists n :: n in OrderBlocksForPlacement(nodes) && n.id == b.id
  {
    var order := OrderBlocksForPlacement(nodes);
    SortPermutes(ByBlockId, blocks);
    MultisetMembers(sorted, blocks);
    OrderPermutes(nodes);
    MultisetMembers(nodes, order);
    forall b | b in blocks ensures exists n :: n in order && n.id == b.id {
      var i :| 0 <= i < |sorted| && sorted[i] == b;
      assert nodes[i] in order && nodes[i].id == b.id;
    }
  }

  /** The order carries the computed ranks. */
  lemma ListedRanks(ids: seq<string>, ranks: Ranks)
    requires forall id :: id in ids ==> id in ranks
    ensures forall n :: n in OrderBlocksForPlacement(RankedNodes(ids, ranks)) ==> n.id in ranks && n.rank == ranks[n.id]
  {
    var nodes := RankedNodes(ids, ranks);
    OrderPermutes(nodes);
    MultisetMembers(OrderBlocksForPlacement(nodes), nodes);
  }

  lemma EdgeFollowed(base: Ranks, edges: seq<BlockEdge>, ranks: Ranks, ids: seq<string>, e: BlockEdge)
    requires KnownEnds(base, edges) && Between(base, ranks)
    requires forall b :: b in ranks ==> Longest(base, edges, b, ranks[b])
    requires forall id :: id in ids ==> id in ranks
    requires e in edges && e.directed && e.source != e.target
    ensures Follows(OrderBlocksForPlacement(RankedNodes(ids, ranks)), e)
  {
    var order := OrderBlocksForPlacement(RankedNodes(ids, ranks));
    OrderPermutes(RankedNodes(ids, ranks));
    assert |multiset(order)| == |ids|;
    forall i: nat, j: nat | i < |order| && j < |order| && order[i].id == e.source && order[j].id == e.target
      ensures i < j <==> order[i].rank < MAX_RANK || StrLess(e.source, e.target)
    {
      OrderedRank(ids, ranks, i);
      PlacementIsTopological(base, edges, ranks, ids, e, i, j);
    }
  }
}
