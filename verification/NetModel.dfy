/** What coordinate net inference is meant to compute, stated on sets of points,
    wire segments and labels only: no union-find, no processing order. */
module NetModel {
  import opened Basics
  import opened Connectivity

  /** A wire read back from the editor: its vertices and its (possibly empty) net. */
  datatype Wire = Wire(points: seq<Point>, net: string)

  datatype Pin = Pin(number: string, at: Option<Point>)

  /** A schematic component. Flags and ports carry a net and a position; `pins`
      is None when the runtime offers no pin list or reading it fails. */
  datatype Part = Part(kind: string, net: string, at: Option<Point>, designator: string, pins: Option<seq<Pin>>)
  {
    predicate OfFlagKind() {
      kind == "netflag" || kind == "netport"
    }

    predicate IsFlag() {
      OfFlagKind() && net != "" && at.Some?
    }
  }

  datatype NetNode = NetNode(component: string, pin: string, at: Option<Point>, source: string)

  type Nets = map<string, seq<NetNode>>

  type Label = (Point, string)

  type PointOrder = (Point, Point) -> bool

  // ----- the scene: known points, wire segments and labels -----

  datatype Scene = Scene(points: set<Point>, links: set<Link>, labels: set<Label>)

  ghost function Vertices(wires: seq<Wire>): set<Point> {
    set w, j | w in wires && 0 <= j < |w.points| :: w.points[j]
  }

  function Segment(w: Wire, j: int): Link
    requires 1 <= j < |w.points|
  {
    (w.points[j - 1], w.points[j])
  }

  /** The consecutive vertex pairs of all wires. */
  ghost function Segments(wires: seq<Wire>): set<Link> {
    set w, j | w in wires && 1 <= j < |w.points| :: Segment(w, j)
  }

  ghost function WireLabels(wires: seq<Wire>): set<Label> {
    set w | w in wires && w.points != [] && w.net != "" :: (w.points[0], w.net)
  }

  ghost function FlagLabels(parts: seq<Part>): set<Label> {
    set c | c in parts && c.IsFlag() :: (c.at.value, c.net)
  }

  ghost function LabelPoints(labels: set<Label>): set<Point> {
    set l | l in labels :: l.0
  }

  ghost function LabelNames(labels: set<Label>): set<string> {
    set l | l in labels :: l.1
  }

  ghost function SceneOf(wires: seq<Wire>, parts: seq<Part>): Scene {
    Scene(Vertices(wires) + LabelPoints(FlagLabels(parts)), Segments(wires), WireLabels(wires) + FlagLabels(parts))
  }

  /** The names attached anywhere in the connected class of `p`. */
  ghost function ClassLabels(links: set<Link>, labels: set<Label>, p: Point): set<string> {
    set l | l in labels && Connected(links, p, l.0) :: l.1
  }

  // ----- anonymous names -----

  function AnonName(k: nat): string {
    "N$" + Decimal(k)
  }

  lemma AnonNameInjective(m: nat, n: nat)
    requires AnonName(m) == AnonName(n)
    ensures m == n
  {
    assert AnonName(m)[2..] == Decimal(m) && AnonName(n)[2..] == Decimal(n);
    DecimalInjective(m, n);
  }

  /** The taken names that are anonymous names numbered `k` or higher. */
  ghost function Numbered(taken: set<string>, k: nat): set<string> {
    set n | n in taken && exists j: nat :: j >= k && n == AnonName(j)
  }

  lemma NumberedShrinks(taken: set<string>, k: nat)
    requires AnonName(k) in taken
    ensures |Numbered(taken, k + 1)| < |Numbered(taken, k)|
  {
    var here, next := Numbered(taken, k), Numbered(taken, k + 1);
    assert AnonName(k) in here;
    if AnonName(k) in next {
      var j: nat :| j >= k + 1 && AnonName(k) == AnonName(j);
      AnonNameInjective(k, j);
    }
    assert next <= here - {AnonName(k)};
    SubsetSize(next, here - {AnonName(k)});
  }

  /** The least number from `k` on whose anonymous name is not taken. */
  ghost function NextFree(taken: set<string>, k: nat): (r: nat)
    ensures r >= k
    decreases |Numbered(taken, k)|
  {
    if AnonName(k) in taken then
      NumberedShrinks(taken, k);
      NextFree(taken, k + 1)
    else k
  }

  lemma {:induction false} NextFreeIsLeast(taken: set<string>, k: nat)
    ensures AnonName(NextFree(taken, k)) !in taken
    ensures forall j: nat :: k <= j < NextFree(taken, k) ==> AnonName(j) in taken
    decreases |Numbered(taken, k)|
  {
    if AnonName(k) in taken {
      NumberedShrinks(taken, k);
      NextFreeIsLeast(taken, k + 1);
    }
  }

  /** The number of the i-th anonymous name handed out. */
  ghost function FreshIndex(taken: set<string>, i: nat): (r: nat)
  {
    if i == 0 then NextFree(taken, 1) else NextFree(taken, FreshIndex(taken, i - 1) + 1)
  }

  lemma {:induction false} FreshIndexIncreases(taken: set<string>, i: nat, j: nat)
    requires i < j
    ensures FreshIndex(taken, i) < FreshIndex(taken, j)
    decreases j
  {
    FreshIndexNext(taken, j - 1);
    if i < j - 1 {
      FreshIndexIncreases(taken, i, j - 1);
    }
  }

  lemma FreshIndexNext(taken: set<string>, i: nat)
    ensures FreshIndex(taken, i) < FreshIndex(taken, i + 1)
  {
    assert FreshIndex(taken, i + 1) == NextFree(taken, FreshIndex(taken, i) + 1);
  }

  lemma FreshIndexFree(taken: set<string>, i: nat)
    ensures AnonName(FreshIndex(taken, i)) !in taken
  {
    NextFreeIsLeast(taken, if i == 0 then 1 else FreshIndex(taken, i - 1) + 1);
  }

  ghost predicate Unlabelled(s: Scene, p: Point) {
    p in s.points && ClassLabels(s.links, s.labels, p) == {}
  }

  /** `p` stands for its class: no other known point of the class comes before it. */
  ghost predicate Leader(s: Scene, before: PointOrder, p: Point) {
    Unlabelled(s, p) && forall q :: q in s.points && Connected(s.links, p, q) ==> q == p || before(p, q)
  }

  ghost function Leaders(s: Scene, before: PointOrder): set<Point> {
    set p | p in s.points && Leader(s, before, p)
  }

  ghost function Earlier(points: set<Point>, before: PointOrder, p: Point): set<Point> {
    set q | q in points && before(q, p)
  }

  /** Unlabelled classes are numbered in the order of their least points. */
  ghost function AnonymousName(s: Scene, taken: set<string>, before: PointOrder, p: Point): string {
    AnonName(FreshIndex(taken, |Earlier(Leaders(s, before), before, p)|))
  }

  ghost function AnonymousLabels(s: Scene, taken: set<string>, before: PointOrder): set<Label> {
    set p | p in Leaders(s, before) :: (p, AnonymousName(s, taken, before, p))
  }

  /** The names of the nets a point belongs to. */
  ghost function NetNames(s: Scene, taken: set<string>, before: PointOrder, p: Point): set<string> {
    ClassLabels(s.links, s.labels + AnonymousLabels(s, taken, before), p)
  }

  // ----- reading pins into nets -----

  predicate SamePin(a: NetNode, b: NetNode) {
    a.component == b.component && a.pin == b.pin
  }

  predicate Holds(nodes: seq<NetNode>, node: NetNode) {
    exists i :: 0 <= i < |nodes| && SamePin(nodes[i], node)
  }

  function Pushed(nodes: seq<NetNode>, node: NetNode): seq<NetNode> {
    if Holds(nodes, node) then nodes else nodes + [node]
  }

  ghost predicate HasPin(nodes: seq<NetNode>, component: string, pin: string) {
    exists i :: 0 <= i < |nodes| && nodes[i].component == component && nodes[i].pin == pin
  }

  lemma HoldsMeans(nodes: seq<NetNode>, node: NetNode)
    ensures Pushed(nodes, node) == if HasPin(nodes, node.component, node.pin) then nodes else nodes + [node]
  {
    if Holds(nodes, node) {
      var i :| 0 <= i < |nodes| && SamePin(nodes[i], node);
      assert nodes[i].component == node.component && nodes[i].pin == node.pin;
    }
    if i :| 0 <= i < |nodes| && nodes[i].component == node.component && nodes[i].pin == node.pin {
      assert SamePin(nodes[i], node);
    }
  }

  /** No two entries of a net are the same pin of the same component. */
  ghost predicate PinsOnce(nodes: seq<NetNode>) {
    forall i, j :: 0 <= i < j < |nodes| ==> nodes[i].component != nodes[j].component || nodes[i].pin != nodes[j].pin
  }

  ghost predicate AllOnce(nets: Nets) {
    forall n :: n in nets ==> PinsOnce(nets[n])
  }

  lemma PushedOnce(nodes: seq<NetNode>, node: NetNode)
    requires PinsOnce(nodes)
    ensures PinsOnce(Pushed(nodes, node))
  {
  }

  function PinNodes(designator: string, pins: seq<Pin>): seq<NetNode> {
    if pins == [] then []
    else
      var pin := pins[|pins| - 1];
      PinNodes(designator, pins[..|pins| - 1]) +
      if pin.number == "" || pin.at.None? then []
      else [NetNode(designator, pin.number, pin.at, "coordinate-fallback")]
  }

  /** Every located pin of every named part, in reading order. */
  function PartNodes(parts: seq<Part>): seq<NetNode> {
    if parts == [] then []
    else
      var part := parts[|parts| - 1];
      PartNodes(parts[..|parts| - 1]) +
      if part.designator == "" || part.pins.None? then []
      else PinNodes(part.designator, part.pins.value)
  }

  ghost function Filled(nets: Nets, s: Scene, taken: set<string>, before: PointOrder, nodes: seq<NetNode>): (r: Nets)
    ensures r.Keys == nets.Keys
  {
    if nodes == [] then nets
    else
      var earlier := Filled(nets, s, taken, before, nodes[..|nodes| - 1]);
      var node := nodes[|nodes| - 1];
      if node.at.None? then earlier
      else FillNode(earlier, NetNames(s, taken, before, node.at.value), node)
  }

  ghost function FillNode(nets: Nets, names: set<string>, node: NetNode): (r: Nets)
    ensures r.Keys == nets.Keys
  {
    map n | n in nets :: if n in names then Pushed(nets[n], node) else nets[n]
  }

  ghost function WithEntries(nets: Nets, names: set<string>): (r: Nets)
    ensures r.Keys == nets.Keys + names
  {
    map n | n in nets.Keys + names :: if n in nets then nets[n] else []
  }

  ghost function TakenNames(nets: Nets, s: Scene): set<string> {
    nets.Keys + LabelNames(s.labels)
  }

  /** The net map after coordinate inference, from the map before it. */
  ghost function InferredNets(nets: Nets, wires: seq<Wire>, parts: seq<Part>, before: PointOrder): Nets {
    if wires == [] then nets
    else
      var s := SceneOf(wires, parts);
      var taken := TakenNames(nets, s);
      var all := taken + LabelNames(AnonymousLabels(s, taken, before));
      Filled(WithEntries(nets, all), s, taken, before, PartNodes(parts))
  }
}
