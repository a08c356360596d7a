/** What the inferred net map guarantees to its readers. */
module NetTheorems {
  import opened Basics
  import opened Connectivity
  import opened NetModel

  /** Labels and segments only involve known points. */
  ghost predicate Grounded(s: Scene) {
    && (forall l :: l in s.links ==> l.0 in s.points && l.1 in s.points)
    && (forall l :: l in s.labels ==> l.0 in s.points)
  }

  lemma SceneGrounded(wires: seq<Wire>, parts: seq<Part>)
    ensures Grounded(SceneOf(wires, parts))
  {
  }

  lemma ClassLabelsShared(links: set<Link>, labels: set<Label>, p: Point, q: Point)
    requires Connected(links, p, q)
    ensures ClassLabels(links, labels, p) == ClassLabels(links, labels, q)
  {
    ConnectedSymmetric(links, p, q);
    forall l | l in labels ensures Connected(links, p, l.0) <==> Connected(links, q, l.0) {
      if Connected(links, p, l.0) {
        ConnectedTransitive(links, q, p, l.0);
      }
      if Connected(links, q, l.0) {
        ConnectedTransitive(links, p, q, l.0);
      }
    }
  }

  lemma {:induction false} LeastPoint(points: set<Point>, before: PointOrder) returns (m: Point)
    requires StrictTotalOrder(before) && points != {}
    ensures m in points && forall q :: q in points ==> q == m || before(m, q)
  {
    var p :| p in points;
    if points == {p} {
      m := p;
    } else {
      var o := LeastPoint(points - {p}, before);
      m := if before(p, o) then p else o;
      forall q | q in points ensures q == m || before(m, q) {
        assert q == p || q == o || before(o, q);
      }
    }
  }

  /** Every unlabelled class has a leader. */
  lemma LeaderExists(s: Scene, before: PointOrder, p: Point) returns (q: Point)
    requires StrictTotalOrder(before) && Unlabelled(s, p)
    ensures q in Leaders(s, before) && Connected(s.links, p, q)
  {
    var group := set o | o in s.points && Connected(s.links, p, o);
    ConnectedReflexive(s.links, p);
    assert p in group;
    q := LeastPoint(group, before);
    ClassLabelsShared(s.links, s.labels, p, q);
    forall o | o in s.points && Connected(s.links, q, o) ensures o == q || before(q, o) {
      ConnectedTransitive(s.links, p, q, o);
      assert o in group;
    }
  }

  /** A class has at most one leader. */
  lemma LeaderUnique(s: Scene, before: PointOrder, p: Point, q: Point)
    requires StrictTotalOrder(before)
    requires p in Leaders(s, before) && q in Leaders(s, before) && Connected(s.links, p, q)
    ensures p == q
  {
    ConnectedSymmetric(s.links, p, q);
    assert before(p, q) && before(q, p) ==> before(p, p);
  }

  /** Different unlabelled classes get different names, none of them taken. */
  lemma AnonymousNamesDiffer(s: Scene, taken: set<string>, before: PointOrder, p: Point, q: Point)
    requires StrictTotalOrder(before)
    requires p in Leaders(s, before) && q in Leaders(s, before) && p != q
    ensures AnonymousName(s, taken, before, p) != AnonymousName(s, taken, before, q)
    decreases before(q, p)
  {
    if before(q, p) {
      AnonymousNamesDiffer(s, taken, before, q, p);
    } else {
      var a, b := Earlier(Leaders(s, before), before, p), Earlier(Leaders(s, before), before, q);
      assert before(p, q);
      assert p in b && p !in a;
      assert a <= b - {p};
      SubsetSize(a, b - {p});
      FreshIndexIncreases(taken, |a|, |b|);
      if AnonymousName(s, taken, before, p) == AnonymousName(s, taken, before, q) {
        AnonNameInjective(FreshIndex(taken, |a|), FreshIndex(taken, |b|));
      }
    }
  }

  /** A labelled class carries its labels and nothing else. */
  lemma NamesOfLabelled(s: Scene, taken: set<string>, before: PointOrder, p: Point)
    requires ClassLabels(s.links, s.labels, p) != {}
    ensures NetNames(s, taken, before, p) == ClassLabels(s.links, s.labels, p)
  {
    forall l | l in AnonymousLabels(s, taken, before) ensures !Connected(s.links, p, l.0) {
      if Connected(s.links, p, l.0) {
        ClassLabelsShared(s.links, s.labels, p, l.0);
      }
    }
  }

  /** An unlabelled class carries exactly one name, numbered by its least point and not taken. */
  lemma NamesOfUnlabelled(s: Scene, taken: set<string>, before: PointOrder, p: Point) returns (q: Point)
    requires StrictTotalOrder(before) && Unlabelled(s, p)
    ensures q in Leaders(s, before) && Connected(s.links, p, q)
    ensures NetNames(s, taken, before, p) == {AnonymousName(s, taken, before, q)}
    ensures AnonymousName(s, taken, before, q) !in taken
  {
    q := LeaderExists(s, before, p);
    FreshIndexFree(taken, |Earlier(Leaders(s, before), before, q)|);
    var own, anonymous := (q, AnonymousName(s, taken, before, q)), AnonymousLabels(s, taken, before);
    assert own in anonymous;
    forall l | l in anonymous && Connected(s.links, p, l.0) ensures l == own {
      ConnectedSymmetric(s.links, p, q);
      ConnectedTransitive(s.links, q, p, l.0);
      LeaderUnique(s, before, q, l.0);
    }
  }

  /** A point no wire or flag touches belongs to no net. */
  lemma NamesElsewhere(s: Scene, taken: set<string>, before: PointOrder, p: Point)
    requires Grounded(s) && p !in s.points
    ensures NetNames(s, taken, before, p) == {}
  {
    forall l | l in s.labels + AnonymousLabels(s, taken, before) ensures !Connected(s.links, p, l.0) {
      if Connected(s.links, p, l.0) {
        IsolatedPoint(s.links, p, l.0);
      }
    }
  }

  ghost predicate ShareLabel(s: Scene, p: Point, q: Point) {
    exists n :: n in ClassLabels(s.links, s.labels, p) && n in ClassLabels(s.links, s.labels, q)
  }

  ghost predicate ShareNet(s: Scene, taken: set<string>, before: PointOrder, p: Point, q: Point) {
    exists n :: n in NetNames(s, taken, before, p) && n in NetNames(s, taken, before, q)
  }

  /** Two points are read into a common net exactly when their classes share a
      label, or they lie in one unlabelled class. */
  lemma ShareNetIff(s: Scene, taken: set<string>, before: PointOrder, p: Point, q: Point)
    requires StrictTotalOrder(before) && Grounded(s) && LabelNames(s.labels) <= taken
    ensures ShareNet(s, taken, before, p, q) <==>
      ShareLabel(s, p, q) || (Unlabelled(s, p) && Unlabelled(s, q) && Connected(s.links, p, q))
  {
    if p !in s.points || q !in s.points {
      var o := if p !in s.points then p else q;
      NamesElsewhere(s, taken, before, o);
      assert ClassLabels(s.links, s.labels, o) <= NetNames(s, taken, before, o);
    } else if Unlabelled(s, p) && Unlabelled(s, q) {
      var a := NamesOfUnlabelled(s, taken, before, p);
      var b := NamesOfUnlabelled(s, taken, before, q);
      BothUnlabelled(s, taken, before, p, q, a, b);
    } else if Unlabelled(s, p) {
      var a := NamesOfUnlabelled(s, taken, before, p);
      NamesOfLabelled(s, taken, before, q);
    } else if Unlabelled(s, q) {
      var b := NamesOfUnlabelled(s, taken, before, q);
      NamesOfLabelled(s, taken, before, p);
    } else {
      NamesOfLabelled(s, taken, before, p);
      NamesOfLabelled(s, taken, before, q);
    }
  }

  lemma BothUnlabelled(s: Scene, taken: set<string>, before: PointOrder, p: Point, q: Point, a: Point, b: Point)
    requires StrictTotalOrder(before) && a in Leaders(s, before) && b in Leaders(s, before)
    requires Connected(s.links, p, a) && Connected(s.links, q, b)
    ensures AnonymousName(s, taken, before, a) == AnonymousName(s, taken, before, b) <==> Connected(s.links, p, q)
  {
    ConnectedSymmetric(s.links, p, a);
    ConnectedSymmetric(s.links, q, b);
    if a == b {
      ConnectedTransitive(s.links, p, a, q);
    } else {
      AnonymousNamesDiffer(s, taken, before, a, b);
      if Connected(s.links, p, q) {
        ConnectedTransitive(s.links, a, p, q);
        ConnectedTransitive(s.links, a, q, b);
        LeaderUnique(s, before, a, b);
      }
    }
  }

  // ----- the map as a whole -----

  /** Some located pin of `nodes` with this component and number lies on net `n`. */
  ghost predicate PinOnNet(s: Scene, taken: set<string>, before: PointOrder, nodes: seq<NetNode>, n: string,
                           component: string, pin: string)
  {
    exists i :: 0 <= i < |nodes| && nodes[i].component == component && nodes[i].pin == pin && nodes[i].at.Some?
                && n in NetNames(s, taken, before, nodes[i].at.value)
  }

  lemma {:induction false} FilledMembership(nets: Nets, s: Scene, taken: set<string>, before: PointOrder,
                                            nodes: seq<NetNode>,
                          n: string, component: string, pin: string)
    requires n in nets
    ensures HasPin(Filled(nets, s, taken, before, nodes)[n], component, pin) <==>
      HasPin(nets[n], component, pin) || PinOnNet(s, taken, before, nodes, n, component, pin)
  {
    if nodes != [] {
      var m := |nodes| - 1;
      var earlier, all := Filled(nets, s, taken, before, nodes[..m]), Filled(nets, s, taken, before, nodes);
      FilledMembership(nets, s, taken, before, nodes[..m], n, component, pin);
      var node := nodes[m];
      PinOnNetSnoc(s, taken, before, nodes, n, component, pin);
      if node.at.Some? && n in NetNames(s, taken, before, node.at.value) {
        PushedMembership(earlier[n], node, component, pin);
      }
    }
  }

  lemma PinOnNetSnoc(s: Scene, taken: set<string>, before: PointOrder, nodes: seq<NetNode>, n: string,
                     component: string, pin: string)
    requires nodes != []
    ensures var node := nodes[|nodes| - 1];
      PinOnNet(s, taken, before, nodes, n, component, pin) <==>
        PinOnNet(s, taken, before, nodes[..|nodes| - 1], n, component, pin)
        || (node.component == component && node.pin == pin && node.at.Some? &&
             n in NetNames(s, taken, before, node.at.value))
  {
    var m := |nodes| - 1;
    if PinOnNet(s, taken, before, nodes[..m], n, component, pin) {
      var i :| 0 <= i < m && nodes[..m][i].component == component && nodes[..m][i].pin == pin && nodes[..m][i].at.Some?
               && n in NetNames(s, taken, before, nodes[..m][i].at.value);
      assert nodes[i] == nodes[..m][i];
    }
    if PinOnNet(s, taken, before, nodes, n, component, pin) {
      var i :| 0 <= i <= m && nodes[i].component == component && nodes[i].pin == pin && nodes[i].at.Some?
               && n in NetNames(s, taken, before, nodes[i].at.value);
      if i < m {
        assert nodes[..m][i] == nodes[i];
      }
    }
  }

  lemma PushedMembership(nodes: seq<NetNode>, node: NetNode, component: string, pin: string)
    ensures HasPin(Pushed(nodes, node), component, pin) <==>
      HasPin(nodes, component, pin) || (node.component == component && node.pin == pin)
  {
    var pushed := Pushed(nodes, node);
    if HasPin(nodes, component, pin) {
      var i :| 0 <= i < |nodes| && nodes[i].component == component && nodes[i].pin == pin;
      assert pushed[i] == nodes[i];
    }
    if node.component == component && node.pin == pin {
      if Holds(nodes, node) {
        var i :| 0 <= i < |nodes| && SamePin(nodes[i], node);
        assert pushed[i] == nodes[i];
      } else {
        assert pushed[|nodes|] == node;
      }
    }
  }

  /** Main result: with at least one wire read, a pin is listed under a net
      afterwards exactly when it was listed before or one of its located
      occurrences is connected to a label of that name (given or anonymous). */
  lemma InferredMembership(nets: Nets, wires: seq<Wire>, parts: seq<Part>, before: PointOrder, n: string,
                           component: string, pin: string)
    requires wires != []
    ensures
      var s := SceneOf(wires, parts);
      var taken := TakenNames(nets, s);
      var after := InferredNets(nets, wires, parts, before);
      && after.Keys == taken + LabelNames(AnonymousLabels(s, taken, before))
      && ((n in after && HasPin(after[n], component, pin)) <==>
            (n in nets && HasPin(nets[n], component, pin)) ||
              PinOnNet(s, taken, before, PartNodes(parts), n, component, pin))
  {
    var s := SceneOf(wires, parts);
    var taken := TakenNames(nets, s);
    var labels := s.labels + AnonymousLabels(s, taken, before);
    var all := taken + LabelNames(AnonymousLabels(s, taken, before));
    var base := WithEntries(nets, all);
    if n in all {
      FilledMembership(base, s, taken, before, PartNodes(parts), n, component, pin);
    } else {
      assert LabelNames(labels) <= all;
      forall p ensures n !in NetNames(s, taken, before, p) {
        assert NetNames(s, taken, before, p) <= LabelNames(labels);
      }
    }
  }

  /** Which occurrences are read: the numbered, located pins of designated parts. */
  lemma {:induction false} PinNodesContents(designator: string, pins: seq<Pin>, node: NetNode)
    ensures node in PinNodes(designator, pins) <==>
      exists p :: p in pins && p.number != "" && p.at.Some? &&
        node == NetNode(designator, p.number, p.at, "coordinate-fallback")
  {
    if pins != [] {
      var m := |pins| - 1;
      assert pins == pins[..m] + [pins[m]];
      PinNodesContents(designator, pins[..m], node);
    }
  }

  lemma {:induction false} PartNodesContents(parts: seq<Part>, node: NetNode)
    ensures node in PartNodes(parts) <==>
      exists c :: c in parts && c.designator != "" && c.pins.Some? && node in PinNodes(c.designator, c.pins.value)
  {
    if parts != [] {
      var m := |parts| - 1;
      assert parts == parts[..m] + [parts[m]];
      PartNodesContents(parts[..m], node);
    }
  }

  /** The result does not depend on the order in which wires are read back. */
  lemma WireOrderIrrelevant(nets: Nets, ws: seq<Wire>, vs: seq<Wire>, parts: seq<Part>, before: PointOrder)
    requires multiset(ws) == multiset(vs)
    ensures InferredNets(nets, ws, parts, before) == InferredNets(nets, vs, parts, before)
  {
    MultisetMembers(ws, vs);
    assert ws == [] <==> vs == [] by {
      assert |ws| == |multiset(ws)| && |vs| == |multiset(vs)|;
    }
    assert Vertices(ws) == Vertices(vs);
    assert Segments(ws) == Segments(vs);
    assert WireLabels(ws) == WireLabels(vs);
  }
}
