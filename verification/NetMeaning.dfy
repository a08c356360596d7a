/** The inferred nets in terms of what was read: wires, flags and pins. Nothing here speaks
    of scenes, classes or the way nodes are pushed. */
module NetMeaning {
  import opened Basics
  import opened Connectivity
  import opened NetModel
  import opened NetTheorems

  // ----- each pin once, nothing lost, nothing invented -----

  lemma {:induction false} FilledOnce(nets: Nets, s: Scene, taken: set<string>, before: PointOrder, nodes: seq<NetNode>)
    requires AllOnce(nets)
    ensures AllOnce(Filled(nets, s, taken, before, nodes))
  {
    if nodes != [] {
      var earlier := Filled(nets, s, taken, before, nodes[..|nodes| - 1]);
      FilledOnce(nets, s, taken, before, nodes[..|nodes| - 1]);
      forall n | n in nets ensures PinsOnce(Filled(nets, s, taken, before, nodes)[n]) {
        PushedOnce(earlier[n], nodes[|nodes| - 1]);
      }
    }
  }

  /** If no net listed a pin twice before, none does afterwards, whatever the wires and parts. */
  lemma InferredOnce(nets: Nets, wires: seq<Wire>, parts: seq<Part>, before: PointOrder)
    requires AllOnce(nets)
    ensures AllOnce(InferredNets(nets, wires, parts, before))
  {
    if wires != [] {
      var s := SceneOf(wires, parts);
      var taken := TakenNames(nets, s);
      var all := taken + LabelNames(AnonymousLabels(s, taken, before));
      FilledOnce(WithEntries(nets, all), s, taken, before, PartNodes(parts));
    }
  }

  predicate Increasing(at: seq<nat>) {
    forall i, j :: 0 <= i < j < |at| ==> at[i] < at[j]
  }

  /** Node i lies on net n, which did not list its pin before and has not met it in the nodes read before. */
  ghost predicate FirstMet(had: seq<NetNode>, s: Scene, taken: set<string>, before: PointOrder, nodes: seq<NetNode>,
                           n: string, i: nat)
    requires i < |nodes|
  {
    && nodes[i].at.Some? && n in NetNames(s, taken, before, nodes[i].at.value)
    && !HasPin(had, nodes[i].component, nodes[i].pin)
    && !PinOnNet(s, taken, before, nodes[..i], n, nodes[i].component, nodes[i].pin)
  }

  /** `list` is the old list with the nodes first met, in reading order, and nothing else. */
  ghost predicate Listing(list: seq<NetNode>, had: seq<NetNode>, s: Scene, taken: set<string>, before: PointOrder,
                          nodes: seq<NetNode>, n: string, at: seq<nat>)
  {
    && |list| == |had| + |at| && had <= list && Increasing(at)
    && (forall i: nat :: i in at <==> i < |nodes| && FirstMet(had, s, taken, before, nodes, n, i))
    && (forall k :: 0 <= k < |at| ==> at[k] < |nodes| && list[|had| + k] == nodes[at[k]])
  }

  lemma ListingNext(list: seq<NetNode>, had: seq<NetNode>, s: Scene, taken: set<string>, before: PointOrder,
                    nodes: seq<NetNode>, n: string, at: seq<nat>, m: nat)
    requires m + 1 == |nodes| && Listing(list, had, s, taken, before, nodes[..m], n, at)
    ensures FirstMet(had, s, taken, before, nodes, n, m) ==>
      Listing(list + [nodes[m]], had, s, taken, before, nodes, n, at + [m])
    ensures !FirstMet(had, s, taken, before, nodes, n, m) ==> Listing(list, had, s, taken, before, nodes, n, at)
  {
    forall i: nat | i < m
      ensures FirstMet(had, s, taken, before, nodes[..m], n, i) <==> FirstMet(had, s, taken, before, nodes, n, i)
    {
      assert nodes[..m][..i] == nodes[..i] && nodes[..m][i] == nodes[i];
    }
    forall k | 0 <= k < |at| ensures at[k] < m {
      assert at[k] in at;
    }
  }

  lemma FilledLast(nets: Nets, s: Scene, taken: set<string>, before: PointOrder, nodes: seq<NetNode>, n: string)
    requires n in nets && nodes != []
    ensures var m, earlier := |nodes| - 1, Filled(nets, s, taken, before, nodes[..|nodes| - 1])[n];
      Filled(nets, s, taken, before, nodes)[n] ==
        if FirstMet(nets[n], s, taken, before, nodes, n, m) then earlier + [nodes[m]] else earlier
  {
    var m := |nodes| - 1;
    FilledMembership(nets, s, taken, before, nodes[..m], n, nodes[m].component, nodes[m].pin);
    HoldsMeans(Filled(nets, s, taken, before, nodes[..m])[n], nodes[m]);
  }

  lemma {:induction false} FilledListing(nets: Nets, s: Scene, taken: set<string>, before: PointOrder,
                                         nodes: seq<NetNode>, n: string)
    returns (at: seq<nat>)
    requires n in nets
    ensures Listing(Filled(nets, s, taken, before, nodes)[n], nets[n], s, taken, before, nodes, n, at)
  {
    if nodes == [] {
      at := [];
    } else {
      var m := |nodes| - 1;
      at := FilledListing(nets, s, taken, before, nodes[..m], n);
      FilledLast(nets, s, taken, before, nodes, n);
      ListingNext(Filled(nets, s, taken, before, nodes[..m])[n], nets[n], s, taken, before, nodes, n, at, m);
      if FirstMet(nets[n], s, taken, before, nodes, n, m) {
        at := at + [m];
      }
    }
  }

  /** Main result on the lists: every net keeps its old list as a prefix, and what is added is exactly the
      pins on the net that it did not list, each where it is read first, in reading order. */
  lemma InferredListing(nets: Nets, wires: seq<Wire>, parts: seq<Part>, before: PointOrder, n: string)
    returns (at: seq<nat>)
    requires wires != [] && n in InferredNets(nets, wires, parts, before)
    ensures var s := SceneOf(wires, parts);
      Listing(InferredNets(nets, wires, parts, before)[n], if n in nets then nets[n] else [], s, TakenNames(nets, s),
        before, PartNodes(parts), n, at)
  {
    var s := SceneOf(wires, parts);
    var taken := TakenNames(nets, s);
    var all := taken + LabelNames(AnonymousLabels(s, taken, before));
    at := FilledListing(WithEntries(nets, all), s, taken, before, PartNodes(parts), n);
  }

  // ----- the reading order -----

  /** Pin j of part i can be listed: the part is designated, the pin numbered and located. */
  predicate Readable(parts: seq<Part>, i: nat, j: nat) {
    && i < |parts| && parts[i].designator != "" && parts[i].pins.Some? && j < |parts[i].pins.value|
    && parts[i].pins.value[j].number != "" && parts[i].pins.value[j].at.Some?
  }

  function NodeOf(parts: seq<Part>, i: nat, j: nat): NetNode
    requires Readable(parts, i, j)
  {
    var pin := parts[i].pins.value[j];
    NetNode(parts[i].designator, pin.number, pin.at, "coordinate-fallback")
  }

  predicate Earlier(a: (nat, nat), b: (nat, nat)) {
    a.0 < b.0 || (a.0 == b.0 && a.1 < b.1)
  }

  predicate ReadAt(nodes: seq<NetNode>, parts: seq<Part>, at: seq<(nat, nat)>) {
    && |at| == |nodes|
    && (forall k, l :: 0 <= k < l < |at| ==> Earlier(at[k], at[l]))
    && (forall k :: 0 <= k < |at| ==> Readable(parts, at[k].0, at[k].1) && nodes[k] == NodeOf(parts, at[k].0, at[k].1))
  }

  lemma {:induction false} PinsRead(parts: seq<Part>, i: nat, n: nat) returns (at: seq<(nat, nat)>)
    requires i < |parts| && parts[i].designator != "" && parts[i].pins.Some? && n <= |parts[i].pins.value|
    ensures ReadAt(PinNodes(parts[i].designator, parts[i].pins.value[..n]), parts, at)
    ensures forall a :: a in at <==> a.0 == i && a.1 < n && Readable(parts, i, a.1)
  {
    if n == 0 {
      at := [];
    } else {
      var pins := parts[i].pins.value;
      at := PinsRead(parts, i, n - 1);
      assert pins[..n][..n - 1] == pins[..n - 1];
      if Readable(parts, i, n - 1) {
        forall k | 0 <= k < |at| ensures Earlier(at[k], (i, n - 1)) {
          assert at[k] in at;
        }
        at := at + [(i, n - 1)];
      }
    }
  }

  lemma ReadAppend(a: seq<NetNode>, b: seq<NetNode>, parts: seq<Part>, atA: seq<(nat, nat)>, atB: seq<(nat, nat)>)
    requires ReadAt(a, parts, atA) && ReadAt(b, parts, atB)
    requires forall x, y :: x in atA && y in atB ==> x.0 < y.0
    ensures ReadAt(a + b, parts, atA + atB)
  {
    forall k, l | 0 <= k < |atA| && 0 <= l < |atB| ensures Earlier(atA[k], atB[l]) {
      assert atA[k] in atA && atB[l] in atB;
    }
  }

  /** The nodes are the readable pins, part by part and pin by pin, each once. */
  lemma {:induction false} PartsRead(parts: seq<Part>, n: nat) returns (at: seq<(nat, nat)>)
    requires n <= |parts|
    ensures ReadAt(PartNodes(parts[..n]), parts, at)
    ensures forall a :: a in at <==> a.0 < n && Readable(parts, a.0, a.1)
  {
    if n == 0 {
      at := [];
    } else {
      at := PartsRead(parts, n - 1);
      assert parts[..n][..n - 1] == parts[..n - 1];
      var part := parts[n - 1];
      if part.designator != "" && part.pins.Some? {
        var more := PinsRead(parts, n - 1, |part.pins.value|);
        assert part.pins.value[..|part.pins.value|] == part.pins.value;
        ReadAppend(PartNodes(parts[..n - 1]), PinNodes(part.designator, part.pins.value), parts, at, more);
        at := at + more;
      }
    }
  }

  // ----- the names of a point -----

  /** a and b are consecutive vertices of a wire, in either order. */
  predicate Consecutive(wires: seq<Wire>, a: Point, b: Point) {
    exists i, j :: 0 <= i < |wires| && 1 <= j < |wires[i].points| && EdgeOf(wires[i], j, a, b)
  }

  predicate EdgeOf(w: Wire, j: int, a: Point, b: Point)
    requires 1 <= j < |w.points|
  {
    (w.points[j - 1] == a && w.points[j] == b) || (w.points[j - 1] == b && w.points[j] == a)
  }

  ghost predicate Path(wires: seq<Wire>, path: seq<Point>, a: Point, b: Point) {
    && path != [] && path[0] == a && path[|path| - 1] == b
    && forall i :: 0 <= i < |path| - 1 ==> Consecutive(wires, path[i], path[i + 1])
  }

  /** b is reached from a along the wires, from vertex to vertex. */
  ghost predicate Joined(wires: seq<Wire>, a: Point, b: Point) {
    exists path :: Path(wires, path, a, b)
  }

  lemma AdjacentMeans(wires: seq<Wire>, a: Point, b: Point)
    ensures Adjacent(Segments(wires), a, b) <==> Consecutive(wires, a, b)
  {
    if Adjacent(Segments(wires), a, b) {
      var w, j :| w in wires && 1 <= j < |w.points| && (Segment(w, j) == (a, b) || Segment(w, j) == (b, a));
      var i :| 0 <= i < |wires| && wires[i] == w;
      assert EdgeOf(wires[i], j, a, b);
    }
    if i, j :| 0 <= i < |wires| && 1 <= j < |wires[i].points| && EdgeOf(wires[i], j, a, b) {
      assert wires[i] in wires && Segment(wires[i], j) in Segments(wires);
    }
  }

  lemma JoinedMeans(wires: seq<Wire>, a: Point, b: Point)
    ensures Connected(Segments(wires), a, b) <==> Joined(wires, a, b)
  {
    forall p, q ensures Adjacent(Segments(wires), p, q) <==> Consecutive(wires, p, q) {
      AdjacentMeans(wires, p, q);
    }
    if Connected(Segments(wires), a, b) {
      var path :| Chain(Segments(wires), path, a, b);
      assert Path(wires, path, a, b);
    }
    if path :| Path(wires, path, a, b) {
      assert Chain(Segments(wires), path, a, b);
    }
  }

  lemma {:induction false} WireIsJoined(wires: seq<Wire>, w: Wire, j: nat)
    requires w in wires && j < |w.points|
    ensures Connected(Segments(wires), w.points[j], w.points[0])
  {
    if j == 0 {
      ConnectedReflexive(Segments(wires), w.points[0]);
    } else {
      assert Segment(w, j) in Segments(wires);
      ConnectedLink(Segments(wires), w.points[j], w.points[j - 1]);
      WireIsJoined(wires, w, j - 1);
      ConnectedTransitive(Segments(wires), w.points[j], w.points[j - 1], w.points[0]);
    }
  }

  predicate IsVertex(wires: seq<Wire>, p: Point) {
    exists i, j :: 0 <= i < |wires| && 0 <= j < |wires[i].points| && wires[i].points[j] == p
  }

  /** The wires lead from p to a vertex of a wire with this net. */
  ghost predicate NamedByWire(wires: seq<Wire>, p: Point, n: string) {
    exists i, j :: 0 <= i < |wires| && 0 <= j < |wires[i].points| && NamesFrom(wires, p, n, i, j)
  }

  ghost predicate NamesFrom(wires: seq<Wire>, p: Point, n: string, i: int, j: int)
    requires 0 <= i < |wires| && 0 <= j < |wires[i].points|
  {
    n != "" && wires[i].net == n && Joined(wires, p, wires[i].points[j])
  }

  /** Part i is a net flag or net port with a net and a place. */
  predicate Flags(parts: seq<Part>, i: int)
    requires 0 <= i < |parts|
  {
    (parts[i].kind == "netflag" || parts[i].kind == "netport") && parts[i].net != "" && parts[i].at.Some?
  }

  /** The wires lead from p to the place of a flag or port with this net. */
  ghost predicate NamedByFlag(wires: seq<Wire>, parts: seq<Part>, p: Point, n: string) {
    exists i :: 0 <= i < |parts| && Flags(parts, i) && parts[i].net == n && Joined(wires, p, parts[i].at.value)
  }

  ghost predicate Named(wires: seq<Wire>, parts: seq<Part>, p: Point, n: string) {
    NamedByWire(wires, p, n) || NamedByFlag(wires, parts, p, n)
  }

  lemma WireLabelMeans(wires: seq<Wire>, p: Point, n: string)
    ensures n in ClassLabels(Segments(wires), WireLabels(wires), p) <==> NamedByWire(wires, p, n)
  {
    if n in ClassLabels(Segments(wires), WireLabels(wires), p) {
      var l :| l in WireLabels(wires) && Connected(Segments(wires), p, l.0) && l.1 == n;
      var w :| w in wires && w.points != [] && w.net != "" && l == (w.points[0], w.net);
      var i :| 0 <= i < |wires| && wires[i] == w;
      JoinedMeans(wires, p, wires[i].points[0]);
      assert NamesFrom(wires, p, n, i, 0);
    }
    if i, j :| 0 <= i < |wires| && 0 <= j < |wires[i].points| && NamesFrom(wires, p, n, i, j) {
      var w := wires[i];
      JoinedMeans(wires, p, w.points[j]);
      WireIsJoined(wires, w, j);
      ConnectedTransitive(Segments(wires), p, w.points[j], w.points[0]);
      assert (w.points[0], w.net) in WireLabels(wires);
    }
  }

  lemma FlagLabelMeans(wires: seq<Wire>, parts: seq<Part>, p: Point, n: string)
    ensures n in ClassLabels(Segments(wires), FlagLabels(parts), p) <==> NamedByFlag(wires, parts, p, n)
  {
    if n in ClassLabels(Segments(wires), FlagLabels(parts), p) {
      var l :| l in FlagLabels(parts) && Connected(Segments(wires), p, l.0) && l.1 == n;
      var c :| c in parts && c.IsFlag() && l == (c.at.value, c.net);
      var i :| 0 <= i < |parts| && parts[i] == c;
      JoinedMeans(wires, p, parts[i].at.value);
      assert Flags(parts, i);
    }
    if i :| 0 <= i < |parts| && Flags(parts, i) && parts[i].net == n && Joined(wires, p, parts[i].at.value) {
      JoinedMeans(wires, p, parts[i].at.value);
      assert parts[i] in parts && (parts[i].at.value, n) in FlagLabels(parts);
    }
  }

  lemma LabelsMean(wires: seq<Wire>, parts: seq<Part>, p: Point, n: string)
    ensures var s := SceneOf(wires, parts); n in ClassLabels(s.links, s.labels, p) <==> Named(wires, parts, p, n)
  {
    WireLabelMeans(wires, p, n);
    FlagLabelMeans(wires, parts, p, n);
    var s := SceneOf(wires, parts);
    assert ClassLabels(s.links, s.labels, p) ==
      ClassLabels(s.links, WireLabels(wires), p) + ClassLabels(s.links, FlagLabels(parts), p);
  }

  /** p is the first vertex, in the order of point keys, of a piece of wiring that no wire or flag names. */
  ghost predicate FirstOfUnnamed(wires: seq<Wire>, parts: seq<Part>, before: PointOrder, p: Point) {
    && IsVertex(wires, p) && (forall n :: !Named(wires, parts, p, n))
    && forall q :: IsVertex(wires, q) && Joined(wires, p, q) ==> q == p || before(p, q)
  }

  lemma VertexMeans(wires: seq<Wire>, p: Point)
    ensures p in Vertices(wires) <==> IsVertex(wires, p)
  {
    if w, j :| w in wires && 0 <= j < |w.points| && w.points[j] == p {
      var i :| 0 <= i < |wires| && wires[i] == w;
      assert wires[i].points[j] == p;
    }
  }

  lemma UnlabelledMeans(wires: seq<Wire>, parts: seq<Part>, p: Point)
    ensures ClassLabels(SceneOf(wires, parts).links, SceneOf(wires, parts).labels, p) == {} <==>
      forall n :: !Named(wires, parts, p, n)
  {
    forall n ensures n in ClassLabels(SceneOf(wires, parts).links, SceneOf(wires, parts).labels, p) <==>
      Named(wires, parts, p, n)
    {
      LabelsMean(wires, parts, p, n);
    }
  }

  lemma FlagPointNamed(wires: seq<Wire>, parts: seq<Part>, p: Point)
    requires p in LabelPoints(FlagLabels(parts))
    ensures ClassLabels(SceneOf(wires, parts).links, SceneOf(wires, parts).labels, p) != {}
  {
    var l :| l in FlagLabels(parts) && l.0 == p;
    ConnectedReflexive(SceneOf(wires, parts).links, p);
    assert l.1 in ClassLabels(SceneOf(wires, parts).links, SceneOf(wires, parts).labels, p);
  }

  lemma LeaderMeans(wires: seq<Wire>, parts: seq<Part>, before: PointOrder, p: Point)
    ensures p in Leaders(SceneOf(wires, parts), before) <==> FirstOfUnnamed(wires, parts, before, p)
  {
    var s := SceneOf(wires, parts);
    UnlabelledMeans(wires, parts, p);
    VertexMeans(wires, p);
    if p in LabelPoints(FlagLabels(parts)) {
      FlagPointNamed(wires, parts, p);
    }
    forall q ensures IsVertex(wires, q) <==> q in Vertices(wires) {
      VertexMeans(wires, q);
    }
    forall q ensures Connected(s.links, p, q) <==> Joined(wires, p, q) {
      JoinedMeans(wires, p, q);
    }
    if FirstOfUnnamed(wires, parts, before, p) {
      forall q | q in s.points && Connected(s.links, p, q) ensures q in Vertices(wires) {
        if q in LabelPoints(FlagLabels(parts)) {
          FlagPointNamed(wires, parts, q);
          ClassLabelsShared(s.links, s.labels, p, q);
        }
      }
    }
  }

  /** The name a piece of wiring without names receives. */
  ghost function FreshName(nets: Nets, wires: seq<Wire>, parts: seq<Part>, before: PointOrder, p: Point): string {
    var s := SceneOf(wires, parts);
    AnonymousName(s, TakenNames(nets, s), before, p)
  }

  /** A piece of wiring without names that p is joined to receives the name n. */
  ghost predicate NamedAfresh(nets: Nets, wires: seq<Wire>, parts: seq<Part>, before: PointOrder, p: Point, n: string) {
    exists q :: FirstOfUnnamed(wires, parts, before, q) && Joined(wires, p, q)
                && n == FreshName(nets, wires, parts, before, q)
  }

  /** One whose first vertex comes before p does. */
  ghost predicate UsedBefore(nets: Nets, wires: seq<Wire>, parts: seq<Part>, before: PointOrder, p: Point, n: string) {
    exists q :: FirstOfUnnamed(wires, parts, before, q) && before(q, p)
                && n == FreshName(nets, wires, parts, before, q)
  }

  /** Some piece of wiring without names does. */
  ghost predicate MadeUp(nets: Nets, wires: seq<Wire>, parts: seq<Part>, before: PointOrder, n: string) {
    exists q :: FirstOfUnnamed(wires, parts, before, q) && n == FreshName(nets, wires, parts, before, q)
  }

  /** A name that exists before any is made up. */
  predicate Exists(nets: Nets, wires: seq<Wire>, parts: seq<Part>, n: string) {
    || n in nets
    || (n != "" && exists i :: 0 <= i < |wires| && wires[i].points != [] && wires[i].net == n)
    || (exists i :: 0 <= i < |parts| && Flags(parts, i) && parts[i].net == n)
  }

  lemma ExistsMeans(nets: Nets, wires: seq<Wire>, parts: seq<Part>, n: string)
    ensures n in TakenNames(nets, SceneOf(wires, parts)) <==> Exists(nets, wires, parts, n)
  {
    var s := SceneOf(wires, parts);
    if n in LabelNames(s.labels) {
      var l :| l in s.labels && l.1 == n;
      if l in WireLabels(wires) {
        var w :| w in wires && w.points != [] && w.net != "" && l == (w.points[0], w.net);
        var i :| 0 <= i < |wires| && wires[i] == w;
      } else {
        var c :| c in parts && c.IsFlag() && l == (c.at.value, c.net);
        var i :| 0 <= i < |parts| && parts[i] == c;
        assert Flags(parts, i);
      }
    }
    if n != "" && exists i :: 0 <= i < |wires| && wires[i].points != [] && wires[i].net == n {
      var i :| 0 <= i < |wires| && wires[i].points != [] && wires[i].net == n;
      assert wires[i] in wires && (wires[i].points[0], n) in s.labels;
    }
    if i :| 0 <= i < |parts| && Flags(parts, i) && parts[i].net == n {
      assert parts[i] in parts && (parts[i].at.value, n) in s.labels;
    }
  }

  // ----- the numbers of made-up names -----

  lemma {:induction false} NumbersUsedUp(taken: set<string>, i: nat, k: nat)
    requires 1 <= k < FreshIndex(taken, i) && AnonName(k) !in taken
    ensures exists j: nat :: j < i && k == FreshIndex(taken, j)
  {
    NextFreeIsLeast(taken, if i == 0 then 1 else FreshIndex(taken, i - 1) + 1);
    if i > 0 && k < FreshIndex(taken, i - 1) {
      NumbersUsedUp(taken, i - 1, k);
    }
  }

  /** In a finite set every position of the order is taken. */
  lemma {:induction false} RankTaken(points: set<Point>, before: PointOrder, i: nat) returns (q: Point)
    requires StrictTotalOrder(before) && i < |points|
    ensures q in points && |NetModel.Earlier(points, before, q)| == i
    decreases |points|
  {
    var m := LeastPoint(points, before);
    if i == 0 {
      q := m;
      assert NetModel.Earlier(points, before, q) == {};
    } else {
      q := RankTaken(points - {m}, before, i - 1);
      assert NetModel.Earlier(points, before, q) == NetModel.Earlier(points - {m}, before, q) + {m};
    }
  }

  lemma RanksFollow(points: set<Point>, before: PointOrder, p: Point, q: Point)
    requires StrictTotalOrder(before) && p in points && q in points
    requires |NetModel.Earlier(points, before, q)| < |NetModel.Earlier(points, before, p)|
    ensures before(q, p)
  {
    if !before(q, p) {
      SubsetSize(NetModel.Earlier(points, before, p), NetModel.Earlier(points, before, q));
    }
  }

  /** A fresh name is N$ and a number that no existing name has; every smaller number from 1 on is that of
      an existing name or of a piece of wiring whose first vertex comes before. */
  lemma FreshNumber(nets: Nets, wires: seq<Wire>, parts: seq<Part>, before: PointOrder, p: Point) returns (k: nat)
    requires StrictTotalOrder(before) && FirstOfUnnamed(wires, parts, before, p)
    ensures FreshName(nets, wires, parts, before, p) == "N$" + Decimal(k)
    ensures k >= 1 && !Exists(nets, wires, parts, "N$" + Decimal(k))
    ensures forall j: nat :: 1 <= j < k ==>
      Exists(nets, wires, parts, "N$" + Decimal(j)) || UsedBefore(nets, wires, parts, before, p, "N$" + Decimal(j))
  {
    var s := SceneOf(wires, parts);
    var taken, leaders := TakenNames(nets, s), Leaders(s, before);
    var rank := |NetModel.Earlier(leaders, before, p)|;
    k := FreshIndex(taken, rank);
    FreshIndexFree(taken, rank);
    ExistsMeans(nets, wires, parts, "N$" + Decimal(k));
    forall j: nat | 1 <= j < k && !Exists(nets, wires, parts, "N$" + Decimal(j))
      ensures UsedBefore(nets, wires, parts, before, p, "N$" + Decimal(j))
    {
      ExistsMeans(nets, wires, parts, "N$" + Decimal(j));
      NumbersUsedUp(taken, rank, j);
      var i: nat :| i < rank && j == FreshIndex(taken, i);
      LeaderMeans(wires, parts, before, p);
      SubsetSize(NetModel.Earlier(leaders, before, p), leaders);
      var q := RankTaken(leaders, before, i);
      LeaderMeans(wires, parts, before, q);
      RanksFollow(leaders, before, p, q);
    }
  }

  /** The nets of a point: the names its wiring leads to, or the fresh name of its wiring if there is none. */
  lemma NamesMean(nets: Nets, wires: seq<Wire>, parts: seq<Part>, before: PointOrder, p: Point, n: string)
    ensures n in NetNames(SceneOf(wires, parts), TakenNames(nets, SceneOf(wires, parts)), before, p) <==>
      Named(wires, parts, p, n) || NamedAfresh(nets, wires, parts, before, p, n)
  {
    var s := SceneOf(wires, parts);
    var taken := TakenNames(nets, s);
    LabelsMean(wires, parts, p, n);
    var anonymous := AnonymousLabels(s, taken, before);
    assert NetNames(s, taken, before, p) == ClassLabels(s.links, s.labels, p) + ClassLabels(s.links, anonymous, p);
    if n in ClassLabels(s.links, anonymous, p) {
      var l :| l in anonymous && Connected(s.links, p, l.0) && l.1 == n;
      LeaderMeans(wires, parts, before, l.0);
      JoinedMeans(wires, p, l.0);
    }
    if NamedAfresh(nets, wires, parts, before, p, n) {
      var q :| FirstOfUnnamed(wires, parts, before, q) && Joined(wires, p, q)
               && n == FreshName(nets, wires, parts, before, q);
      LeaderMeans(wires, parts, before, q);
      JoinedMeans(wires, p, q);
      assert (q, n) in anonymous;
    }
  }

  /** Pin j of part i is this pin, is read, and its place belongs to net n. */
  ghost predicate ReadOnNet(nets: Nets, wires: seq<Wire>, parts: seq<Part>, before: PointOrder, i: nat, j: nat,
                            n: string, component: string, pin: string)
  {
    && Readable(parts, i, j) && parts[i].designator == component && parts[i].pins.value[j].number == pin
    && (Named(wires, parts, parts[i].pins.value[j].at.value, n)
        || NamedAfresh(nets, wires, parts, before, parts[i].pins.value[j].at.value, n))
  }

  ghost predicate PinRead(nets: Nets, wires: seq<Wire>, parts: seq<Part>, before: PointOrder, n: string,
                          component: string, pin: string)
  {
    exists i: nat, j: nat :: ReadOnNet(nets, wires, parts, before, i, j, n, component, pin)
  }

  lemma NodeRead(nets: Nets, wires: seq<Wire>, parts: seq<Part>, before: PointOrder, n: string,
                 at: seq<(nat, nat)>, k: nat)
    requires ReadAt(PartNodes(parts), parts, at) && k < |at|
    ensures var node := PartNodes(parts)[k];
      (node.at.Some? && n in NetNames(SceneOf(wires, parts), TakenNames(nets, SceneOf(wires, parts)), before,
         node.at.value)) <==> ReadOnNet(nets, wires, parts, before, at[k].0, at[k].1, n, node.component, node.pin)
  {
    NamesMean(nets, wires, parts, before, PartNodes(parts)[k].at.value, n);
  }

  lemma PinReadMeans(nets: Nets, wires: seq<Wire>, parts: seq<Part>, before: PointOrder, n: string,
                     component: string, pin: string)
    ensures var s := SceneOf(wires, parts);
      PinOnNet(s, TakenNames(nets, s), before, PartNodes(parts), n, component, pin) <==>
      PinRead(nets, wires, parts, before, n, component, pin)
  {
    var at := PartsRead(parts, |parts|);
    assert parts[..|parts|] == parts;
    if PinRead(nets, wires, parts, before, n, component, pin) {
      ReadPinIsOnNet(nets, wires, parts, before, n, component, pin, at);
    }
    if PinOnNet(SceneOf(wires, parts), TakenNames(nets, SceneOf(wires, parts)), before, PartNodes(parts), n, component,
      pin)
    {
      PinOnNetIsRead(nets, wires, parts, before, n, component, pin, at);
    }
  }

  lemma PinOnNetIsRead(nets: Nets, wires: seq<Wire>, parts: seq<Part>, before: PointOrder, n: string,
                       component: string, pin: string, at: seq<(nat, nat)>)
    requires ReadAt(PartNodes(parts), parts, at)
    requires PinOnNet(SceneOf(wires, parts), TakenNames(nets, SceneOf(wires, parts)), before, PartNodes(parts), n,
      component, pin)
    ensures PinRead(nets, wires, parts, before, n, component, pin)
  {
    var s, nodes := SceneOf(wires, parts), PartNodes(parts);
    var k :| 0 <= k < |nodes| && nodes[k].component == component && nodes[k].pin == pin && nodes[k].at.Some?
             && n in NetNames(s, TakenNames(nets, s), before, nodes[k].at.value);
    NodeRead(nets, wires, parts, before, n, at, k);
  }

  lemma ReadPinIsOnNet(nets: Nets, wires: seq<Wire>, parts: seq<Part>, before: PointOrder, n: string,
                       component: string, pin: string, at: seq<(nat, nat)>)
    requires ReadAt(PartNodes(parts), parts, at)
    requires forall a :: a in at <==> Readable(parts, a.0, a.1)
    requires PinRead(nets, wires, parts, before, n, component, pin)
    ensures PinOnNet(SceneOf(wires, parts), TakenNames(nets, SceneOf(wires, parts)), before, PartNodes(parts), n,
      component, pin)
  {
    var i: nat, j: nat :| ReadOnNet(nets, wires, parts, before, i, j, n, component, pin);
    assert (i, j) in at;
    var k :| 0 <= k < |at| && at[k] == (i, j);
    NodeRead(nets, wires, parts, before, n, at, k);
  }

  /** Main result, from the wires, flags and pins alone: which nets there are afterwards, and which pins each
      of them lists. */
  lemma InferredMeans(nets: Nets, wires: seq<Wire>, parts: seq<Part>, before: PointOrder, n: string,
                      component: string, pin: string)
    requires wires != []
    ensures var after := InferredNets(nets, wires, parts, before);
      && (n in after <==> Exists(nets, wires, parts, n) || MadeUp(nets, wires, parts, before, n))
      && ((n in after && HasPin(after[n], component, pin)) <==>
            (n in nets && HasPin(nets[n], component, pin)) || PinRead(nets, wires, parts, before, n, component, pin))
  {
    var s := SceneOf(wires, parts);
    var taken := TakenNames(nets, s);
    InferredMembership(nets, wires, parts, before, n, component, pin);
    PinReadMeans(nets, wires, parts, before, n, component, pin);
    ExistsMeans(nets, wires, parts, n);
    if n in LabelNames(AnonymousLabels(s, taken, before)) {
      var l :| l in AnonymousLabels(s, taken, before) && l.1 == n;
      LeaderMeans(wires, parts, before, l.0);
    }
    if q :| FirstOfUnnamed(wires, parts, before, q) && n == FreshName(nets, wires, parts, before, q) {
      LeaderMeans(wires, parts, before, q);
      assert (q, n) in AnonymousLabels(s, taken, before);
    }
  }
}
