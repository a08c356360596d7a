/** Coordinate net inference: labels are attached to union-find roots that later
    unions may outdate, so a pass moves them to the current roots before flags,
    anonymous names and pins are read. */
module NetInference {
  import opened Basics
  import opened Connectivity
  import opened DisjointSets
  import opened NetModel

  /** Net names by union-find root; a root may be outdated while wires are read. */
  type RootNames = map<Point, set<string>>

  class NetMap {
    var nets: Nets

    constructor (nets: Nets)
      ensures this.nets == nets
    {
      this.nets := nets;
    }

    method EnsureEntry(name: string)
      modifies this
      ensures nets == WithEntries(old(nets), {name})
    {
      if name !in nets {
        nets := nets[name := []];
      }
      assert nets == WithEntries(old(nets), {name});
    }

    method PushUnique(name: string, node: NetNode)
      modifies this
      ensures name == "" || node.component == "" || node.pin == "" ==> nets == old(nets)
      ensures name != "" && node.component != "" && node.pin != "" ==>
        nets == old(nets)[name := Pushed(if name in old(nets) then old(nets)[name] else [], node)]
      ensures name != "" && node.component != "" && node.pin != "" ==>
        var had := if name in old(nets) then old(nets)[name] else [];
        nets == old(nets)[name := if HasPin(had, node.component, node.pin) then had else had + [node]]
      ensures AllOnce(old(nets)) ==> AllOnce(nets)
    {
      if name == "" || node.component == "" || node.pin == "" {
        return;
      }
      EnsureEntry(name);
      HoldsMeans(nets[name], node);
      if PinsOnce(nets[name]) {
        PushedOnce(nets[name], node);
      }
      if !Holds(nets[name], node) {
        nets := nets[name := nets[name] + [node]];
      }
    }
  }

  // ----- labels held by roots -----

  ghost predicate Carries(names: RootNames, links: set<Link>, l: Label, r: Point) {
    r in names && l.1 in names[r] && Connected(links, r, l.0)
  }

  ghost predicate Kept(names: RootNames, links: set<Link>, l: Label) {
    exists r :: Carries(names, links, l, r)
  }

  ghost predicate Backed(names: RootNames, links: set<Link>, labels: set<Label>, r: Point, n: string) {
    exists l :: l in labels && l.1 == n && Carries(names, links, l, r)
  }

  /** `names` records exactly `labels`, each under some root of the label's class:
      no label is lost and none is attached to a foreign class. */
  ghost predicate Held(names: RootNames, links: set<Link>, labels: set<Label>) {
    && (forall l {:trigger Kept(names, links, l)} :: l in labels ==> Kept(names, links, l))
    && (forall r, n {:trigger Backed(names, links, labels, r, n)} ::
          r in names && n in names[r] ==> Backed(names, links, labels, r, n))
  }

  function At(names: RootNames, r: Point): set<string> {
    if r in names then names[r] else {}
  }

  ghost predicate Known(names: RootNames, nets: Nets) {
    forall r, n :: r in names && n in names[r] ==> n in nets && n != ""
  }

  lemma HeldUnderMoreLinks(names: RootNames, links: set<Link>, more: set<Link>, labels: set<Label>)
    requires Held(names, links, labels) && links <= more
    ensures Held(names, more, labels)
  {
    forall l | l in labels ensures Kept(names, more, l) {
      assert Kept(names, links, l);
      var r :| Carries(names, links, l, r);
      ConnectedMonotone(links, more, r, l.0);
      assert Carries(names, more, l, r);
    }
    forall r, n | r in names && n in names[r] ensures Backed(names, more, labels, r, n) {
      assert Backed(names, links, labels, r, n);
      var l :| l in labels && l.1 == n && Carries(names, links, l, r);
      ConnectedMonotone(links, more, r, l.0);
      assert Carries(names, more, l, r);
    }
  }

  lemma HeldAfterLabel(names: RootNames, links: set<Link>, labels: set<Label>, r: Point, p: Point, n: string)
    requires Held(names, links, labels) && Connected(links, r, p)
    ensures Held(names[r := At(names, r) + {n}], links, labels + {(p, n)})
  {
    var next, all := names[r := At(names, r) + {n}], labels + {(p, n)};
    forall l | l in all ensures Kept(next, links, l) {
      if l == (p, n) {
        assert Carries(next, links, l, r);
      } else {
        assert Kept(names, links, l);
        var q :| Carries(names, links, l, q);
        assert Carries(next, links, l, q);
      }
    }
    forall q, m | q in next && m in next[q] ensures Backed(next, links, all, q, m) {
      if q in names && m in names[q] {
        assert Backed(names, links, labels, q, m);
        var l :| l in labels && l.1 == m && Carries(names, links, l, q);
        assert l in all && Carries(next, links, l, q);
      } else {
        assert (p, n) in all && Carries(next, links, (p, n), q);
      }
    }
  }

  function Moved(names: RootNames, from: Point, to: Point): RootNames
    requires from in names
  {
    names[to := At(names, to) + names[from]] - {from}
  }

  lemma HeldAfterMove(names: RootNames, links: set<Link>, labels: set<Label>, from: Point, to: Point)
    requires Held(names, links, labels) && from in names && from != to && Connected(links, to, from)
    ensures Held(Moved(names, from, to), links, labels)
  {
    var next := Moved(names, from, to);
    forall l | l in labels ensures Kept(next, links, l) {
      assert Kept(names, links, l);
      var q :| Carries(names, links, l, q);
      if q == from {
        ConnectedTransitive(links, to, from, l.0);
        assert Carries(next, links, l, to);
      } else {
        assert Carries(next, links, l, q);
      }
    }
    forall q, m | q in next && m in next[q] ensures Backed(next, links, labels, q, m) {
      if q in names && m in names[q] {
        assert Backed(names, links, labels, q, m);
        var l :| l in labels && l.1 == m && Carries(names, links, l, q);
        assert Carries(next, links, l, q);
      } else {
        assert Backed(names, links, labels, from, m);
        var l :| l in labels && l.1 == m && Carries(names, links, l, from);
        ConnectedTransitive(links, to, from, l.0);
        assert Carries(next, links, l, q);
      }
    }
  }

  /** Every recorded root is a current root. */
  ghost predicate Settled(names: RootNames, root: Pointers) {
    forall r :: r in names ==> r in root && root[r] == r
  }

  /** Once settled, the names under a point's root are exactly its class's labels. */
  lemma SettledLookup(names: RootNames, links: set<Link>, labels: set<Label>, root: Pointers, p: Point)
    requires Held(names, links, labels) && Settled(names, root) && Represents(links, root)
    requires p in root
    ensures At(names, root[p]) == ClassLabels(links, labels, p)
  {
    var r := root[p];
    assert Connected(links, p, root[p]);
    ConnectedSymmetric(links, p, r);
    forall n | n in At(names, r) ensures n in ClassLabels(links, labels, p) {
      assert Backed(names, links, labels, r, n);
      var l :| l in labels && l.1 == n && Carries(names, links, l, r);
      ConnectedTransitive(links, p, r, l.0);
    }
    forall n | n in ClassLabels(links, labels, p) ensures n in At(names, r) {
      var l :| l in labels && l.1 == n && Connected(links, p, l.0);
      assert Kept(names, links, l);
      var q :| Carries(names, links, l, q);
      ConnectedSymmetric(links, q, l.0);
      ConnectedTransitive(links, p, l.0, q);
      SameRootIffConnected(links, root, p, q);
      assert q == r;
    }
  }

  // ----- reading wires and labels -----

  /** Attaches a name to the current root of `point`, registering the point if new;
      an empty name does nothing. */
  method AddNetLabel(dsu: DisjointSet, netMap: NetMap, names: RootNames, point: Point, net: string,
                     ghost labels: set<Label>)
    returns (next: RootNames)
    requires dsu.Valid() && names.Keys <= dsu.root.Keys && Held(names, dsu.links, labels)
    modifies dsu, netMap
    ensures dsu.Valid() && dsu.links == old(dsu.links) && next.Keys <= dsu.root.Keys
    ensures dsu.root.Keys == old(dsu.root.Keys) + if net == "" then {} else {point}
    ensures old(Settled(names, dsu.root)) ==> Settled(next, dsu.root)
    ensures net == "" ==> next == names && dsu.root == old(dsu.root) && netMap.nets == old(netMap.nets)
    ensures net != "" ==> Held(next, dsu.links, labels + {(point, net)})
    ensures net != "" ==> netMap.nets == WithEntries(old(netMap.nets), LabelNames({(point, net)}))
  {
    if net == "" {
      return names;
    }
    var root := dsu.Find(point);
    RootFacts(dsu.parent, dsu.root, dsu.height, dsu.bound, dsu.links, point);
    HeldAfterLabel(names, dsu.links, labels, root, point, net);
    next := names[root := At(names, root) + {net}];
    netMap.EnsureEntry(net);
    assert LabelNames({(point, net)}) == {net};
  }

  ghost function FirstPoints(points: seq<Point>, n: nat): set<Point>
    requires n <= |points|
  {
    set j | 0 <= j < n :: points[j]
  }

  ghost function FirstSegments(wire: Wire, n: nat): set<Link>
    requires n <= |wire.points|
  {
    set j | 1 <= j < n :: Segment(wire, j)
  }

  /** Registers a wire's vertices and joins each to the next. */
  method JoinPolyline(dsu: DisjointSet, wire: Wire)
    requires dsu.Valid()
    modifies dsu
    ensures dsu.Valid()
    ensures dsu.links == old(dsu.links) + Segments([wire])
    ensures dsu.root.Keys == old(dsu.root.Keys) + Vertices([wire])
  {
    var points := wire.points;
    for i := 0 to |points|
      invariant dsu.Valid() && dsu.links == old(dsu.links)
      invariant dsu.root.Keys == old(dsu.root.Keys) + FirstPoints(points, i)
    {
      var _ := dsu.Find(points[i]);
      assert FirstPoints(points, i + 1) == FirstPoints(points, i) + {points[i]};
    }
    assert FirstPoints(points, |points|) == Vertices([wire]);
    JoinNeighbours(dsu, wire);
  }

  method JoinNeighbours(dsu: DisjointSet, wire: Wire)
    requires dsu.Valid()
    requires Vertices([wire]) <= dsu.root.Keys
    modifies dsu
    ensures dsu.Valid()
    ensures dsu.links == old(dsu.links) + Segments([wire])
    ensures dsu.root.Keys == old(dsu.root.Keys)
  {
    var points := wire.points;
    var i := 1;
    while i < |points|
      invariant 1 <= i && (i <= |points| || i == 1)
      invariant dsu.Valid() && dsu.root.Keys == old(dsu.root.Keys)
      invariant dsu.links == old(dsu.links) + if i <= |points| then FirstSegments(wire, i) else {}
    {
      assert points[i - 1] in Vertices([wire]) && points[i] in Vertices([wire]);
      dsu.Union(points[i - 1], points[i]);
      assert FirstSegments(wire, i + 1) == FirstSegments(wire, i) + {Segment(wire, i)};
      i := i + 1;
    }
    assert Segments([wire]) == if i <= |points| then FirstSegments(wire, i) else {};
  }

  lemma WiresSnoc(wires: seq<Wire>, i: nat)
    requires i < |wires|
    ensures Vertices(wires[..i + 1]) == Vertices(wires[..i]) + Vertices([wires[i]])
    ensures Segments(wires[..i + 1]) == Segments(wires[..i]) + Segments([wires[i]])
    ensures WireLabels(wires[..i + 1]) == WireLabels(wires[..i]) + WireLabels([wires[i]])
  {
    assert wires[..i + 1] == wires[..i] + [wires[i]];
    assert forall w :: w in wires[..i + 1] <==> w in wires[..i] || w in [wires[i]];
  }

  /** One wire: its polyline, then its label at the first vertex, under the root of the moment. */
  method ReadWire(dsu: DisjointSet, netMap: NetMap, names: RootNames, wire: Wire, ghost labels: set<Label>)
    returns (next: RootNames)
    requires dsu.Valid() && names.Keys <= dsu.root.Keys && Held(names, dsu.links, labels)
    modifies dsu, netMap
    ensures dsu.Valid() && next.Keys <= dsu.root.Keys
    ensures dsu.links == old(dsu.links) + Segments([wire])
    ensures dsu.root.Keys == old(dsu.root.Keys) + Vertices([wire])
    ensures Held(next, dsu.links, labels + WireLabels([wire]))
    ensures netMap.nets == WithEntries(old(netMap.nets), LabelNames(WireLabels([wire])))
  {
    next := names;
    WireLabelsOfOne(wire, labels);
    if wire.points == [] {
      assert Segments([wire]) == {} && Vertices([wire]) == {};
      return;
    }
    JoinPolyline(dsu, wire);
    HeldUnderMoreLinks(names, old(dsu.links), dsu.links, labels);
    if wire.net != "" {
      assert wire.points[0] in Vertices([wire]);
      next := AddNetLabel(dsu, netMap, names, wire.points[0], wire.net, labels);
    }
  }

  lemma WireLabelsOfOne(wire: Wire, labels: set<Label>)
    ensures wire.points != [] && wire.net != "" ==> WireLabels([wire]) == {(wire.points[0], wire.net)}
    ensures !(wire.points != [] && wire.net != "") ==> WireLabels([wire]) == {} && labels + WireLabels([wire]) == labels
  {
  }

  method ReadWires(dsu: DisjointSet, netMap: NetMap, wires: seq<Wire>) returns (names: RootNames)
    requires dsu.Valid() && dsu.root == map[] && dsu.links == {}
    modifies dsu, netMap
    ensures dsu.Valid() && names.Keys <= dsu.root.Keys
    ensures dsu.links == Segments(wires) && dsu.root.Keys == Vertices(wires)
    ensures Held(names, dsu.links, WireLabels(wires))
    ensures netMap.nets == WithEntries(old(netMap.nets), LabelNames(WireLabels(wires)))
  {
    names := map[];
    assert netMap.nets == WithEntries(netMap.nets, {});
    for i := 0 to |wires|
      invariant dsu.Valid() && names.Keys <= dsu.root.Keys
      invariant dsu.links == Segments(wires[..i]) && dsu.root.Keys == Vertices(wires[..i])
      invariant Held(names, dsu.links, WireLabels(wires[..i]))
      invariant netMap.nets == WithEntries(old(netMap.nets), LabelNames(WireLabels(wires[..i])))
    {
      ghost var seen := WireLabels(wires[..i]);
      names := ReadWire(dsu, netMap, names, wires[i], seen);
      WiresSnoc(wires, i);
      EntriesCompose(old(netMap.nets), seen, WireLabels([wires[i]]));
    }
    assert wires[..|wires|] == wires;
  }

  lemma EntriesCompose(nets: Nets, a: set<Label>, b: set<Label>)
    ensures WithEntries(WithEntries(nets, LabelNames(a)), LabelNames(b)) == WithEntries(nets, LabelNames(a + b))
  {
    assert LabelNames(a + b) == LabelNames(a) + LabelNames(b);
  }

  /** Moves labels recorded under outdated roots to the roots of the finished forest. */
  method RenormaliseRoots(dsu: DisjointSet, names: RootNames, ghost labels: set<Label>) returns (next: RootNames)
    requires dsu.Valid() && names.Keys <= dsu.root.Keys && Held(names, dsu.links, labels)
    modifies dsu
    ensures dsu.Valid() && dsu.links == old(dsu.links) && dsu.root == old(dsu.root)
    ensures Held(next, dsu.links, labels) && Settled(next, dsu.root)
  {
    next := names;
    var remaining := names.Keys;
    while remaining != {}
      invariant dsu.Valid() && dsu.links == old(dsu.links) && dsu.root == old(dsu.root)
      invariant remaining <= next.Keys <= dsu.root.Keys
      invariant Held(next, dsu.links, labels)
      invariant forall k :: k in next && k !in remaining ==> dsu.root[k] == k
      decreases |remaining|
    {
      var root :| root in remaining;
      remaining := remaining - {root};
      var normalised := dsu.Find(root);
      RootFacts(dsu.parent, dsu.root, dsu.height, dsu.bound, dsu.links, root);
      if normalised != root {
        HeldAfterMove(next, dsu.links, labels, root, normalised);
        next := Moved(next, root, normalised);
      }
    }
  }

  lemma RootFacts(parent: Pointers, root: Pointers, height: map<Point, nat>, bound: nat, links: set<Link>, k: Point)
    requires Sound(parent, root, height, bound, links) && k in root
    ensures root[k] in root && root[root[k]] == root[k]
    ensures Connected(links, k, root[k]) && Connected(links, root[k], k)
  {
    assert Node(parent, root, height, bound, k);
    assert Connected(links, k, root[k]);
    ConnectedSymmetric(links, k, root[k]);
  }

  /** A net flag or port names the class of the point it stands on. */
  method ReadFlag(dsu: DisjointSet, netMap: NetMap, names: RootNames, part: Part, ghost labels: set<Label>)
    returns (next: RootNames)
    requires dsu.Valid() && Held(names, dsu.links, labels) && Settled(names, dsu.root)
    modifies dsu, netMap
    ensures dsu.Valid() && dsu.links == old(dsu.links)
    ensures dsu.root.Keys == old(dsu.root.Keys) + LabelPoints(FlagLabels([part]))
    ensures Held(next, dsu.links, labels + FlagLabels([part])) && Settled(next, dsu.root)
    ensures netMap.nets == WithEntries(old(netMap.nets), LabelNames(FlagLabels([part])))
  {
    next := names;
    if part.IsFlag() {
      assert FlagLabels([part]) == {(part.at.value, part.net)};
      assert LabelPoints({(part.at.value, part.net)}) == {part.at.value};
      next := AddNetLabel(dsu, netMap, names, part.at.value, part.net, labels);
    } else {
      assert FlagLabels([part]) == {} && labels + {} == labels;
    }
  }

  method ReadFlags(dsu: DisjointSet, netMap: NetMap, names: RootNames, parts: seq<Part>, ghost labels: set<Label>)
    returns (next: RootNames)
    requires dsu.Valid() && Held(names, dsu.links, labels) && Settled(names, dsu.root)
    modifies dsu, netMap
    ensures dsu.Valid() && dsu.links == old(dsu.links)
    ensures dsu.root.Keys == old(dsu.root.Keys) + LabelPoints(FlagLabels(parts))
    ensures Held(next, dsu.links, labels + FlagLabels(parts)) && Settled(next, dsu.root)
    ensures netMap.nets == WithEntries(old(netMap.nets), LabelNames(FlagLabels(parts)))
  {
    next := names;
    ghost var known, nets := dsu.root.Keys, netMap.nets;
    assert labels + FlagLabels(parts[..0]) == labels && LabelPoints(FlagLabels(parts[..0])) == {};
    for i := 0 to |parts|
      invariant dsu.Valid() && dsu.links == old(dsu.links)
      invariant dsu.root.Keys == known + LabelPoints(FlagLabels(parts[..i]))
      invariant Held(next, dsu.links, labels + FlagLabels(parts[..i])) && Settled(next, dsu.root)
      invariant netMap.nets == WithEntries(nets, LabelNames(FlagLabels(parts[..i])))
    {
      ghost var seen := FlagLabels(parts[..i]);
      FlagsSnoc(parts, i, labels, known);
      EntriesCompose(nets, seen, FlagLabels([parts[i]]));
      next := ReadFlag(dsu, netMap, next, parts[i], labels + seen);
    }
    assert parts[..|parts|] == parts;
  }

  lemma FlagsSnoc(parts: seq<Part>, i: nat, labels: set<Label>, known: set<Point>)
    requires i < |parts|
    ensures FlagLabels(parts[..i + 1]) == FlagLabels(parts[..i]) + FlagLabels([parts[i]])
    ensures labels + FlagLabels(parts[..i]) + FlagLabels([parts[i]]) == labels + FlagLabels(parts[..i + 1])
    ensures known + LabelPoints(FlagLabels(parts[..i])) + LabelPoints(FlagLabels([parts[i]])) ==
      known + LabelPoints(FlagLabels(parts[..i + 1]))
  {
    assert parts[..i + 1] == parts[..i] + [parts[i]];
    assert forall c :: c in parts[..i + 1] <==> c in parts[..i] || c in [parts[i]];
  }

  // ----- naming the unlabelled classes -----

  ghost predicate Covered(least: map<Point, Point>, root: Pointers, before: PointOrder, q: Point) {
    q in root && root[q] in least && (q == least[root[q]] || before(least[root[q]], q))
  }

  ghost predicate Attained(least: map<Point, Point>, root: Pointers, known: set<Point>, r: Point) {
    r in least && least[r] in known && least[r] in root && root[least[r]] == r
  }

  /** `least` gives each class root the first known point of its class. */
  ghost predicate LeastOf(least: map<Point, Point>, root: Pointers, known: set<Point>, before: PointOrder) {
    && (forall q {:trigger Covered(least, root, before, q)} :: q in known ==> Covered(least, root, before, q))
    && (forall r {:trigger Attained(least, root, known, r)} :: r in least ==> Attained(least, root, known, r))
  }

  lemma LeastExtended(least: map<Point, Point>, root: Pointers, known: set<Point>, before: PointOrder, p: Point)
    requires StrictTotalOrder(before) && LeastOf(least, root, known, before) && p in root && p !in known
    ensures LeastOf(if root[p] !in least || before(p, least[root[p]]) then least[root[p] := p] else least,
                    root, known + {p}, before)
  {
    var next := if root[p] !in least || before(p, least[root[p]]) then least[root[p] := p] else least;
    forall q | q in known + {p} ensures Covered(next, root, before, q) {
      assert q in known ==> Covered(least, root, before, q);
    }
    forall r | r in next ensures Attained(next, root, known + {p}, r) {
      assert r in least ==> Attained(least, root, known, r);
    }
  }

  method LeastPoints(dsu: DisjointSet, before: PointOrder) returns (least: map<Point, Point>)
    requires dsu.Valid() && StrictTotalOrder(before)
    modifies dsu
    ensures dsu.Valid() && dsu.links == old(dsu.links) && dsu.root == old(dsu.root)
    ensures LeastOf(least, dsu.root, dsu.root.Keys, before)
  {
    least := map[];
    var remaining := dsu.parent.Keys;
    ghost var known := {};
    while remaining != {}
      invariant dsu.Valid() && dsu.links == old(dsu.links) && dsu.root == old(dsu.root)
      invariant known !! remaining && known + remaining == dsu.root.Keys
      invariant LeastOf(least, dsu.root, known, before)
      decreases |remaining|
    {
      var point :| point in remaining;
      remaining := remaining - {point};
      var root := dsu.Find(point);
      LeastExtended(least, dsu.root, known, before, point);
      if root !in least || before(point, least[root]) {
        least := least[root := point];
      }
      known := known + {point};
    }
  }

  type ClassEntry = (Point, Point)

  function Unnamed(names: RootNames, e: ClassEntry): bool {
    At(names, e.0) == {}
  }

  /** The (root, least point) entries of the classes without a name. */
  method UnnamedEntries(least: map<Point, Point>, names: RootNames) returns (entries: seq<ClassEntry>)
    ensures Distinct(entries)
    ensures forall e :: e in entries <==> e.0 in least && e.1 == least[e.0] && Unnamed(names, e)
  {
    entries := [];
    var remaining := least.Keys;
    while remaining != {}
      invariant remaining <= least.Keys
      invariant Distinct(entries)
      invariant forall e :: e in entries <==>
        e.0 in least && e.0 !in remaining && e.1 == least[e.0] && Unnamed(names, e)
      decreases |remaining|
    {
      var root :| root in remaining;
      remaining := remaining - {root};
      if Unnamed(names, (root, least[root])) {
        assert (root, least[root]) !in entries;
        entries := entries + [(root, least[root])];
      }
    }
  }

  /** The entries of `entries` in the order of their points. */
  ghost predicate InPointOrder(entries: seq<ClassEntry>, before: PointOrder) {
    forall i, j :: 0 <= i < j < |entries| ==> before(entries[i].1, entries[j].1)
  }

  function ByPoint(before: PointOrder): (ClassEntry, ClassEntry) -> bool {
    (a: ClassEntry, b: ClassEntry) => !before(b.1, a.1)
  }

  lemma SortedEntries(entries: seq<ClassEntry>, least: map<Point, Point>, root: Pointers, before: PointOrder)
    requires StrictTotalOrder(before) && Distinct(entries)
    requires LeastOf(least, root, root.Keys, before)
    requires forall e :: e in entries ==> e.0 in least && e.1 == least[e.0]
    ensures InPointOrder(SortBy(ByPoint(before), entries), before)
    ensures forall e :: e in SortBy(ByPoint(before), entries) <==> e in entries
  {
    var le := ByPoint(before);
    var sorted := SortBy(le, entries);
    assert TotalPreorder(le) by {
      forall a, b ensures le(a, b) || le(b, a) {
        assert before(a.1, b.1) && before(b.1, a.1) ==> before(a.1, a.1);
      }
      forall a, b, c | le(a, b) && le(b, c) ensures le(a, c) {
        assert a.1 == b.1 || before(a.1, b.1);
        assert b.1 == c.1 || before(b.1, c.1);
      }
    }
    SortOrdered(le, entries);
    SortPermutes(le, entries);
    MultisetMembers(sorted, entries);
    DistinctMultiset(entries, sorted);
    forall i, j | 0 <= i < j < |sorted| ensures before(sorted[i].1, sorted[j].1) {
      assert le(sorted[i], sorted[j]);
      assert sorted[i] in entries && sorted[j] in entries;
      assert Attained(least, root, root.Keys, sorted[i].0) && Attained(least, root, root.Keys, sorted[j].0);
      assert root[sorted[i].1] == sorted[i].0 && root[sorted[j].1] == sorted[j].0;
      assert sorted[i].1 != sorted[j].1;
    }
  }

  lemma SettledUnlabelled(names: RootNames, root: Pointers, s: Scene, p: Point)
    requires Held(names, s.links, s.labels) && Settled(names, root) && Represents(s.links, root)
    requires s.points == root.Keys && p in root
    ensures Unlabelled(s, p) <==> At(names, root[p]) == {}
  {
    SettledLookup(names, s.links, s.labels, root, p);
  }

  /** The unnamed classes' least points are exactly the scene's leaders. */
  lemma EntriesAreLeaders(entries: seq<ClassEntry>, least: map<Point, Point>, names: RootNames, root: Pointers,
                          s: Scene, before: PointOrder)
    requires StrictTotalOrder(before)
    requires Held(names, s.links, s.labels) && Settled(names, root) && Represents(s.links, root)
    requires s.points == root.Keys && LeastOf(least, root, root.Keys, before)
    requires forall e :: e in entries <==> e.0 in least && e.1 == least[e.0] && Unnamed(names, e)
    ensures forall p :: p in Leaders(s, before) <==> p in root && (root[p], p) in entries
  {
    forall p | p in root ensures p in Leaders(s, before) <==> (root[p], p) in entries {
      SettledUnlabelled(names, root, s, p);
      assert Covered(least, root, before, p);
      var q := least[root[p]];
      assert Attained(least, root, root.Keys, root[p]);
      SameRootIffConnected(s.links, root, p, q);
      if (root[p], p) in entries {
        forall o | o in s.points && Connected(s.links, p, o) ensures o == p || before(p, o) {
          SameRootIffConnected(s.links, root, p, o);
          assert Covered(least, root, before, o);
        }
      }
    }
  }

  /** In a strictly sorted list exactly i points come before the i-th. */
  lemma RankInOrder(entries: seq<ClassEntry>, points: set<Point>, before: PointOrder, i: nat)
    requires StrictTotalOrder(before) && InPointOrder(entries, before) && i < |entries|
    requires forall p :: p in points <==> exists e :: e in entries && e.1 == p
    ensures |Earlier(points, before, entries[i].1)| == i
  {
    var earlier := Earlier(points, before, entries[i].1);
    forall p ensures p in earlier <==> p in PointsOf(entries, i) {
      if p in earlier {
        var e :| e in entries && e.1 == p;
        var j :| 0 <= j < |entries| && entries[j] == e;
        assert j != i && !(i < j);
        assert p in PointsOf(entries, i);
      }
      if p in PointsOf(entries, i) {
        var j :| 0 <= j < i && entries[j].1 == p;
        assert entries[j] in entries;
      }
    }
    assert earlier == PointsOf(entries, i);
    PointsCount(entries, before, i);
  }

  ghost function PointsOf(entries: seq<ClassEntry>, n: nat): set<Point>
    requires n <= |entries|
  {
    set j | 0 <= j < n :: entries[j].1
  }

  lemma {:induction false} PointsCount(entries: seq<ClassEntry>, before: PointOrder, n: nat)
    requires StrictTotalOrder(before) && InPointOrder(entries, before) && n <= |entries|
    ensures |PointsOf(entries, n)| == n
  {
    if n > 0 {
      PointsCount(entries, before, n - 1);
      NewPoint(entries, before, n - 1);
    }
  }

  lemma NewPoint(entries: seq<ClassEntry>, before: PointOrder, n: nat)
    requires StrictTotalOrder(before) && InPointOrder(entries, before) && n < |entries|
    ensures entries[n].1 !in PointsOf(entries, n) && PointsOf(entries, n + 1) == PointsOf(entries, n) + {entries[n].1}
  {
    forall j | 0 <= j < n ensures entries[j].1 != entries[n].1 {
      assert before(entries[j].1, entries[n].1);
    }
  }

  /** The numbers anonymous names are tried from, class by class. */
  ghost function Start(taken: set<string>, i: nat): nat {
    if i == 0 then 1 else FreshIndex(taken, i - 1) + 1
  }

  ghost predicate FreshAt(supply: nat -> string, start: nat -> nat, taken: set<string>, i: nat) {
    supply(i) == AnonName(FreshIndex(taken, i)) && start(i) == Start(taken, i) && start(i + 1) == Start(taken, i + 1)
  }

  /** `supply` lists the free anonymous names in order. */
  ghost predicate FreshSupply(supply: nat -> string, start: nat -> nat, taken: set<string>) {
    forall i: nat {:trigger FreshAt(supply, start, taken, i)} :: FreshAt(supply, start, taken, i)
  }

  /** The anonymous labels given to the first n classes of the sorted list. */
  ghost function NamedUpTo(sorted: seq<ClassEntry>, supply: nat -> string, n: nat): set<Label>
    requires n <= |sorted|
  {
    set j | 0 <= j < n :: (sorted[j].1, supply(j))
  }

  lemma NamedUpToSnoc(sorted: seq<ClassEntry>, supply: nat -> string, n: nat)
    requires n < |sorted|
    ensures NamedUpTo(sorted, supply, n + 1) == NamedUpTo(sorted, supply, n) + {(sorted[n].1, supply(n))}
  {
  }

  lemma NamedUpToAll(sorted: seq<ClassEntry>, supply: nat -> string, start: nat -> nat, s: Scene, taken: set<string>,
                     before: PointOrder)
    requires StrictTotalOrder(before) && InPointOrder(sorted, before) && FreshSupply(supply, start, taken)
    requires forall p :: p in Leaders(s, before) <==> exists e :: e in sorted && e.1 == p
    ensures NamedUpTo(sorted, supply, |sorted|) == AnonymousLabels(s, taken, before)
  {
    var named, anonymous := NamedUpTo(sorted, supply, |sorted|), AnonymousLabels(s, taken, before);
    forall j | 0 <= j < |sorted|
      ensures sorted[j].1 in Leaders(s, before)
      ensures AnonymousName(s, taken, before, sorted[j].1) == supply(j)
    {
      assert sorted[j] in sorted;
      RankInOrder(sorted, Leaders(s, before), before, j);
      assert FreshAt(supply, start, taken, j);
    }
    forall l | l in anonymous ensures l in named {
      var e :| e in sorted && e.1 == l.0;
      var j :| 0 <= j < |sorted| && sorted[j] == e;
      assert l == (sorted[j].1, supply(j));
    }
  }

  lemma StartAbove(taken: set<string>, i: nat, j: nat)
    requires j < i
    ensures FreshIndex(taken, j) < Start(taken, i)
  {
    if j < i - 1 {
      FreshIndexIncreases(taken, j, i - 1);
    }
  }

  lemma NotHandedOut(sorted: seq<ClassEntry>, supply: nat -> string, start: nat -> nat, taken: set<string>, i: nat,
                     k: nat)
    requires FreshSupply(supply, start, taken) && i <= |sorted| && k >= Start(taken, i)
    ensures AnonName(k) !in LabelNames(NamedUpTo(sorted, supply, i))
  {
    forall l | l in NamedUpTo(sorted, supply, i) ensures l.1 != AnonName(k) {
      var j :| 0 <= j < i && l == (sorted[j].1, supply(j));
      assert FreshAt(supply, start, taken, j);
      StartAbove(taken, i, j);
      if l.1 == AnonName(k) {
        AnonNameInjective(k, FreshIndex(taken, j));
      }
    }
  }

  /** Counts up until `N$k` is not a net yet. */
  method FreeNumber(netMap: NetMap, from: nat, ghost taken: set<string>, ghost supply: nat -> string,
                    ghost start: nat -> nat,
                    ghost sorted: seq<ClassEntry>, ghost i: nat) returns (k: nat)
    requires FreshSupply(supply, start, taken) && i <= |sorted| && from == start(i)
    requires netMap.nets.Keys == taken + LabelNames(NamedUpTo(sorted, supply, i))
    ensures AnonName(k) == supply(i) && k + 1 == start(i + 1)
  {
    assert FreshAt(supply, start, taken, i);
    k := from;
    while AnonName(k) in netMap.nets
      invariant from <= k
      invariant forall j: nat :: from <= j < k ==> AnonName(j) in taken
      decreases |Numbered(taken, k)|
    {
      NotHandedOut(sorted, supply, start, taken, i, k);
      NumberedShrinks(taken, k);
      k := k + 1;
    }
    FirstFree(taken, start, supply, i, k);
  }

  /** The number the loop ends at is the one the supply gives next. */
  lemma FirstFree(taken: set<string>, start: nat -> nat, supply: nat -> string, i: nat, k: nat)
    requires FreshSupply(supply, start, taken) && start(i) <= k && AnonName(k) !in taken
    requires forall j: nat :: start(i) <= j < k ==> AnonName(j) in taken
    ensures AnonName(k) == supply(i) && k + 1 == start(i + 1)
  {
    assert FreshAt(supply, start, taken, i);
    NextFreeIsLeast(taken, start(i));
    assert k == FreshIndex(taken, i);
  }

  ghost predicate Nameable(names: RootNames, links: set<Link>, sorted: seq<ClassEntry>, from: nat) {
    forall j :: from <= j < |sorted| ==> At(names, sorted[j].0) == {} && Connected(links, sorted[j].0, sorted[j].1)
  }

  ghost predicate RootsApart(sorted: seq<ClassEntry>) {
    forall i, j :: 0 <= i < j < |sorted| ==> sorted[i].0 != sorted[j].0
  }

  ghost function EntryRoots(sorted: seq<ClassEntry>, n: nat): set<Point>
    requires n <= |sorted|
  {
    set j | 0 <= j < n :: sorted[j].0
  }

  /** Naming the i-th class: what the step adds to the labels and to the net map. */
  lemma NamingStep(nets: Nets, names: RootNames, sorted: seq<ClassEntry>, links: set<Link>, labels: set<Label>,
                   seen: set<Label>, i: nat, name: string)
    requires i < |sorted| && Nameable(names, links, sorted, i) && RootsApart(sorted)
    requires Held(names, links, labels + seen)
    ensures Nameable(names[sorted[i].0 := {name}], links, sorted, i + 1)
    ensures Held(names[sorted[i].0 := {name}], links, labels + (seen + {(sorted[i].1, name)}))
    ensures WithEntries(WithEntries(nets, LabelNames(seen)), {name}) ==
            WithEntries(nets, LabelNames(seen + {(sorted[i].1, name)}))
  {
    var root, mark := sorted[i].0, (sorted[i].1, name);
    HeldAfterLabel(names, links, labels + seen, root, mark.0, mark.1);
    assert labels + seen + {mark} == labels + (seen + {mark});
    assert At(names, root) + {name} == {name};
    assert LabelNames({mark}) == {name};
    EntriesCompose(nets, seen, {mark});
  }

  /** The i-th class receives the next free name. */
  method NameEntry(netMap: NetMap, names: RootNames, sorted: seq<ClassEntry>, i: nat, from: nat,
                   ghost nets: Nets, ghost supply: nat -> string, ghost start: nat -> nat,
                   ghost links: set<Link>, ghost labels: set<Label>)
    returns (next: RootNames, nextNumber: nat)
    requires FreshSupply(supply, start, nets.Keys) && i < |sorted| && from == start(i)
    requires Nameable(names, links, sorted, i) && RootsApart(sorted)
    requires Held(names, links, labels + NamedUpTo(sorted, supply, i))
    requires netMap.nets == WithEntries(nets, LabelNames(NamedUpTo(sorted, supply, i)))
    modifies netMap
    ensures nextNumber == start(i + 1)
    ensures next.Keys == names.Keys + {sorted[i].0} && Nameable(next, links, sorted, i + 1)
    ensures Held(next, links, labels + NamedUpTo(sorted, supply, i + 1))
    ensures netMap.nets == WithEntries(nets, LabelNames(NamedUpTo(sorted, supply, i + 1)))
  {
    var k := FreeNumber(netMap, from, nets.Keys, supply, start, sorted, i);
    var name := AnonName(k);
    NamingStep(nets, names, sorted, links, labels, NamedUpTo(sorted, supply, i), i, name);
    NamedUpToSnoc(sorted, supply, i);
    next := names[sorted[i].0 := {name}];
    netMap.EnsureEntry(name);
    nextNumber := k + 1;
  }

  /** What holds once the first i classes have their names. */
  ghost predicate NamedSoFar(next: RootNames, now: Nets, names: RootNames, nets: Nets, sorted: seq<ClassEntry>,
                             supply: nat -> string, links: set<Link>, labels: set<Label>, i: nat)
    requires i <= |sorted|
  {
    && next.Keys == names.Keys + EntryRoots(sorted, i) && Nameable(next, links, sorted, i)
    && Held(next, links, labels + NamedUpTo(sorted, supply, i))
    && now == WithEntries(nets, LabelNames(NamedUpTo(sorted, supply, i)))
  }

  lemma NothingNamed(names: RootNames, nets: Nets, sorted: seq<ClassEntry>, supply: nat -> string,
                     links: set<Link>, labels: set<Label>)
    requires Held(names, links, labels) && Nameable(names, links, sorted, 0)
    ensures NamedSoFar(names, nets, names, nets, sorted, supply, links, labels, 0)
  {
    assert labels + NamedUpTo(sorted, supply, 0) == labels;
  }

  lemma RootsNext(sorted: seq<ClassEntry>, i: nat)
    requires i < |sorted|
    ensures EntryRoots(sorted, i + 1) == EntryRoots(sorted, i) + {sorted[i].0}
  {
  }

  /** Names the listed classes in order, skipping numbers whose name is taken. */
  method NameEntries(netMap: NetMap, names: RootNames, sorted: seq<ClassEntry>,
                     ghost supply: nat -> string, ghost start: nat -> nat, ghost links: set<Link>,
                     ghost labels: set<Label>)
    returns (next: RootNames)
    requires FreshSupply(supply, start, netMap.nets.Keys) && start(0) == 1
    requires Held(names, links, labels) && Nameable(names, links, sorted, 0) && RootsApart(sorted)
    modifies netMap
    ensures NamedSoFar(next, netMap.nets, names, old(netMap.nets), sorted, supply, links, labels, |sorted|)
  {
    ghost var nets := netMap.nets;
    next := names;
    var nextAnonymousNet := 1;
    NothingNamed(names, nets, sorted, supply, links, labels);
    for i := 0 to |sorted|
      invariant nextAnonymousNet == start(i)
      invariant NamedSoFar(next, netMap.nets, names, nets, sorted, supply, links, labels, i)
    {
      RootsNext(sorted, i);
      next, nextAnonymousNet := NameEntry(netMap, next, sorted, i, nextAnonymousNet, nets, supply, start, links,
        labels);
    }
  }

  lemma Supply(taken: set<string>) returns (supply: nat -> string, start: nat -> nat)
    ensures FreshSupply(supply, start, taken) && start(0) == 1
  {
    supply := (i: nat) => AnonName(FreshIndex(taken, i));
    start := (i: nat) => Start(taken, i);
    forall i: nat ensures FreshAt(supply, start, taken, i) {
    }
  }

  /** Gives every connected class without a label a fresh name. */
  method AddUnnamedWireNetLabels(netMap: NetMap, dsu: DisjointSet, names: RootNames, before: PointOrder,
                                 ghost labels: set<Label>)
    returns (next: RootNames)
    requires dsu.Valid() && StrictTotalOrder(before)
    requires Held(names, dsu.links, labels) && Settled(names, dsu.root)
    modifies dsu, netMap
    ensures dsu.Valid() && dsu.links == old(dsu.links) && dsu.root == old(dsu.root)
    ensures
      var anonymous := AnonymousLabels(Scene(dsu.root.Keys, dsu.links, labels), old(netMap.nets).Keys, before);
      && Held(next, dsu.links, labels + anonymous) && Settled(next, dsu.root)
      && netMap.nets == WithEntries(old(netMap.nets), LabelNames(anonymous))
  {
    var least := LeastPoints(dsu, before);
    var entries := UnnamedEntries(least, names);
    var sorted := SortBy(ByPoint(before), entries);
    ghost var taken := netMap.nets.Keys;
    ghost var supply, start := Supply(taken);
    NamingPlan(dsu.parent, dsu.root, dsu.height, dsu.bound, dsu.links, labels, names, least, entries, supply, start,
      taken, before);
    next := NameEntries(netMap, names, sorted, supply, start, dsu.links, labels);
  }

  /** The sorted entries can be named one after another, and naming them all
      produces the scene's anonymous labels. */
  lemma NamingPlan(parent: Pointers, root: Pointers, height: map<Point, nat>, bound: nat, links: set<Link>,
                   labels: set<Label>,
                   names: RootNames, least: map<Point, Point>, entries: seq<ClassEntry>,
                   supply: nat -> string, start: nat -> nat, taken: set<string>, before: PointOrder)
    requires FreshSupply(supply, start, taken)
    requires Sound(parent, root, height, bound, links) && StrictTotalOrder(before)
    requires Held(names, links, labels) && Settled(names, root)
    requires LeastOf(least, root, root.Keys, before) && Distinct(entries)
    requires forall e :: e in entries <==> e.0 in least && e.1 == least[e.0] && Unnamed(names, e)
    ensures
      var sorted := SortBy(ByPoint(before), entries);
      && Nameable(names, links, sorted, 0)
      && RootsApart(sorted)
      && (forall r :: r in EntryRoots(sorted, |sorted|) ==> r in root && root[r] == r)
      && NamedUpTo(sorted, supply, |sorted|) == AnonymousLabels(Scene(root.Keys, links, labels), taken, before)
  {
    var s := Scene(root.Keys, links, labels);
    var sorted := SortBy(ByPoint(before), entries);
    SortedEntries(entries, least, root, before);
    EntriesAreLeaders(entries, least, names, root, s, before);
    forall e | e in sorted
      ensures e.0 in root && e.1 in root && root[e.0] == e.0 && root[e.1] == e.0 && Connected(links, e.0, e.1)
    {
      assert e in entries && Attained(least, root, root.Keys, e.0);
      RootFacts(parent, root, height, bound, links, e.1);
    }
    assert RootsApart(sorted) by {
      forall i, j | 0 <= i < j < |sorted| ensures sorted[i].0 != sorted[j].0 {
        assert sorted[i] in sorted && sorted[j] in sorted;
        assert before(sorted[i].1, sorted[j].1);
      }
    }
    forall r | r in EntryRoots(sorted, |sorted|) ensures r in root && root[r] == r {
      var j :| 0 <= j < |sorted| && sorted[j].0 == r;
      assert sorted[j] in sorted;
    }
    forall p ensures p in Leaders(s, before) <==> exists e :: e in sorted && e.1 == p {
      if p in Leaders(s, before) {
        assert (root[p], p) in sorted;
      }
      if e :| e in sorted && e.1 == p {
        assert e == (root[p], p);
      }
    }
    forall j | 0 <= j < |sorted| ensures At(names, sorted[j].0) == {} && Connected(links, sorted[j].0, sorted[j].1) {
      assert sorted[j] in sorted && sorted[j] in entries;
    }
    NamedUpToAll(sorted, supply, start, s, taken, before);
  }

  // ----- reading pins -----

  /** Adds one pin to every net of its class. */
  method PushToAll(netMap: NetMap, names: set<string>, node: NetNode)
    requires node.component != "" && node.pin != ""
    requires names <= netMap.nets.Keys && "" !in names
    modifies netMap
    ensures netMap.nets == FillNode(old(netMap.nets), names, node)
  {
    var remaining := names;
    ghost var nets, done := netMap.nets, {};
    while remaining != {}
      invariant done + remaining == names && done !! remaining
      invariant netMap.nets == FillNode(nets, done, node)
      decreases |remaining|
    {
      var name :| name in remaining;
      FillOneMore(nets, done, name, node);
      remaining, done := remaining - {name}, done + {name};
      netMap.PushUnique(name, node);
    }
  }

  lemma FillOneMore(nets: Nets, done: set<string>, name: string, node: NetNode)
    requires name in nets && name !in done
    ensures FillNode(nets, done + {name}, node) ==
      FillNode(nets, done, node)[name := Pushed(FillNode(nets, done, node)[name], node)]
  {
  }

  /** What pin reading relies on: the finished forest and its label table. */
  ghost predicate Finished(dsu: DisjointSet, names: RootNames, s: Scene, labels: set<Label>)
    reads dsu
  {
    && dsu.Valid() && dsu.links == s.links && Held(names, s.links, labels) && Settled(names, dsu.root)
  }

  lemma HeldNames(names: RootNames, links: set<Link>, labels: set<Label>, r: Point)
    requires Held(names, links, labels)
    ensures At(names, r) <= LabelNames(labels)
  {
    forall n | n in At(names, r) ensures n in LabelNames(labels) {
      assert Backed(names, links, labels, r, n);
    }
  }

  method ReadPin(netMap: NetMap, dsu: DisjointSet, names: RootNames, designator: string, pin: Pin,
                 ghost s: Scene, ghost taken: set<string>, before: PointOrder)
    requires Finished(dsu, names, s, s.labels + AnonymousLabels(s, taken, before))
    requires LabelNames(s.labels + AnonymousLabels(s, taken, before)) <= netMap.nets.Keys - {""}
    requires designator != "" && pin.number != "" && pin.at.Some?
    modifies netMap, dsu
    ensures Finished(dsu, names, s, s.labels + AnonymousLabels(s, taken, before))
    ensures netMap.nets == FillNode(old(netMap.nets), NetNames(s, taken, before, pin.at.value),
                                    NetNode(designator, pin.number, pin.at, "coordinate-fallback"))
  {
    ghost var labels := s.labels + AnonymousLabels(s, taken, before);
    var point := pin.at.value;
    var root := dsu.Find(point);
    SettledLookup(names, s.links, labels, dsu.root, point);
    HeldNames(names, s.links, labels, root);
    PushToAll(netMap, At(names, root), NetNode(designator, pin.number, pin.at, "coordinate-fallback"));
  }

  method ReadPins(netMap: NetMap, dsu: DisjointSet, names: RootNames, designator: string, pins: seq<Pin>,
                  ghost s: Scene, ghost taken: set<string>, before: PointOrder, ghost nets: Nets,
                  ghost nodes: seq<NetNode>)
    requires Finished(dsu, names, s, s.labels + AnonymousLabels(s, taken, before))
    requires LabelNames(s.labels + AnonymousLabels(s, taken, before)) <= nets.Keys - {""}
    requires designator != "" && netMap.nets == Filled(nets, s, taken, before, nodes)
    modifies netMap, dsu
    ensures Finished(dsu, names, s, s.labels + AnonymousLabels(s, taken, before))
    ensures netMap.nets == Filled(nets, s, taken, before, nodes + PinNodes(designator, pins))
  {
    assert nodes + PinNodes(designator, pins[..0]) == nodes;
    for i := 0 to |pins|
      invariant Finished(dsu, names, s, s.labels + AnonymousLabels(s, taken, before))
      invariant netMap.nets == Filled(nets, s, taken, before, nodes + PinNodes(designator, pins[..i]))
    {
      PinNodesSnoc(designator, pins, i);
      var pin := pins[i];
      if pin.number != "" && pin.at.Some? {
        ghost var done := nodes + PinNodes(designator, pins[..i]);
        ghost var node := NetNode(designator, pin.number, pin.at, "coordinate-fallback");
        FilledSnoc(nets, s, taken, before, done, node);
        assert nodes + PinNodes(designator, pins[..i + 1]) == done + [node];
        ReadPin(netMap, dsu, names, designator, pin, s, taken, before);
      } else {
        assert PinNodes(designator, pins[..i + 1]) == PinNodes(designator, pins[..i]);
      }
    }
    assert pins[..|pins|] == pins;
  }

  lemma PinNodesSnoc(designator: string, pins: seq<Pin>, i: nat)
    requires i < |pins|
    ensures PinNodes(designator, pins[..i + 1]) == PinNodes(designator, pins[..i]) +
      if pins[i].number == "" || pins[i].at.None? then []
      else [NetNode(designator, pins[i].number, pins[i].at, "coordinate-fallback")]
  {
    assert pins[..i + 1][..i] == pins[..i];
  }

  lemma PartNodesSnoc(parts: seq<Part>, i: nat)
    requires i < |parts|
    ensures PartNodes(parts[..i + 1]) == PartNodes(parts[..i]) +
      if parts[i].designator == "" || parts[i].pins.None? then []
      else PinNodes(parts[i].designator, parts[i].pins.value)
  {
    assert parts[..i + 1][..i] == parts[..i];
  }

  lemma FilledSnoc(nets: Nets, s: Scene, taken: set<string>, before: PointOrder, nodes: seq<NetNode>, node: NetNode)
    requires node.at.Some?
    ensures Filled(nets, s, taken, before, nodes + [node]) ==
      FillNode(Filled(nets, s, taken, before, nodes), NetNames(s, taken, before, node.at.value), node)
  {
    assert (nodes + [node])[..|nodes|] == nodes;
  }

  method ReadParts(netMap: NetMap, dsu: DisjointSet, names: RootNames, parts: seq<Part>,
                   ghost s: Scene, ghost taken: set<string>, before: PointOrder)
    requires Finished(dsu, names, s, s.labels + AnonymousLabels(s, taken, before))
    requires LabelNames(s.labels + AnonymousLabels(s, taken, before)) <= netMap.nets.Keys - {""}
    modifies netMap, dsu
    ensures netMap.nets == Filled(old(netMap.nets), s, taken, before, PartNodes(parts))
  {
    ghost var nets := netMap.nets;
    for i := 0 to |parts|
      invariant Finished(dsu, names, s, s.labels + AnonymousLabels(s, taken, before))
      invariant netMap.nets == Filled(nets, s, taken, before, PartNodes(parts[..i]))
    {
      PartNodesSnoc(parts, i);
      var part := parts[i];
      if part.designator != "" && part.pins.Some? {
        ReadPins(netMap, dsu, names, part.designator, part.pins.value, s, taken, before, nets, PartNodes(parts[..i]));
      } else {
        assert PartNodes(parts[..i + 1]) == PartNodes(parts[..i]);
      }
    }
    assert parts[..|parts|] == parts;
  }

  // ----- the whole fallback -----

  lemma LabelsNonEmpty(wires: seq<Wire>, parts: seq<Part>, taken: set<string>, before: PointOrder)
    ensures var s := SceneOf(wires, parts); "" !in LabelNames(s.labels + AnonymousLabels(s, taken, before))
  {
    var s := SceneOf(wires, parts);
    forall l | l in s.labels + AnonymousLabels(s, taken, before) ensures l.1 != "" {
      if l in AnonymousLabels(s, taken, before) {
        assert |l.1| >= 2;
      }
    }
  }

  /** Reads wires, flags and pins by coordinate and completes `netMap` in place. */
  method AddCoordinateFallbackNets(netMap: NetMap, wires: seq<Wire>, parts: seq<Part>, before: PointOrder)
    requires StrictTotalOrder(before)
    modifies netMap
    ensures netMap.nets == InferredNets(old(netMap.nets), wires, parts, before)
    ensures wires == [] ==> netMap.nets == old(netMap.nets)
  {
    if wires == [] {
      return;
    }
    ghost var nets, s := netMap.nets, SceneOf(wires, parts);
    var dsu := new DisjointSet();
    var names := ReadWires(dsu, netMap, wires);
    names := RenormaliseRoots(dsu, names, WireLabels(wires));
    names := ReadFlags(dsu, netMap, names, parts, WireLabels(wires));
    EntriesCompose(nets, WireLabels(wires), FlagLabels(parts));
    assert Scene(dsu.root.Keys, dsu.links, s.labels) == s;
    ghost var taken := netMap.nets.Keys;
    assert taken == TakenNames(nets, s);
    names := AddUnnamedWireNetLabels(netMap, dsu, names, before, s.labels);
    EntriesCompose(nets, s.labels, AnonymousLabels(s, taken, before));
    AllEntries(nets, s, taken, before);
    LabelsNonEmpty(wires, parts, taken, before);
    ReadParts(netMap, dsu, names, parts, s, taken, before);
  }

  lemma AllEntries(nets: Nets, s: Scene, taken: set<string>, before: PointOrder)
    requires taken == TakenNames(nets, s)
    ensures WithEntries(nets, taken + LabelNames(AnonymousLabels(s, taken, before))) ==
            WithEntries(nets, LabelNames(s.labels + AnonymousLabels(s, taken, before)))
  {
    var anonymous := AnonymousLabels(s, taken, before);
    assert LabelNames(s.labels + anonymous) == LabelNames(s.labels) + LabelNames(anonymous);
    assert nets.Keys + (taken + LabelNames(anonymous)) == nets.Keys + LabelNames(s.labels + anonymous);
  }
}
