/** "Wires follow a moved component": after a move, wire vertices that stood on
    the component's old pin points are translated by the same amount. */
module WireFollow {
  import opened Basics
  import opened Connectivity
  import opened NetModel
  import opened NetTheorems

  /** The two shapes a wire line is stored in. Entries shorter than two numbers,
      a dangling last number and extra numbers are kept but carry no vertex. */
  datatype RawLine = Flat(numbers: seq<int>) | Pairs(pairs: seq<seq<int>>)

  datatype RawWire = RawWire(id: string, line: RawLine, net: string, style: string)

  function ParseFlat(ns: seq<int>): seq<Point> {
    if |ns| < 2 then [] else [Point(ns[0], ns[1])] + ParseFlat(ns[2..])
  }

  function ParsePairs(ps: seq<seq<int>>): seq<Point> {
    if ps == [] then []
    else (if |ps[0]| < 2 then [] else [Point(ps[0][0], ps[0][1])]) + ParsePairs(ps[1..])
  }

  function ParseLinePoints(line: RawLine): seq<Point> {
    match line
    case Flat(ns) => ParseFlat(ns)
    case Pairs(ps) => ParsePairs(ps)
  }

  /** Where a point goes when the points of `targets` move by (dx, dy). */
  function Follow(targets: set<Point>, dx: int, dy: int, p: Point): Point {
    if p in targets then Point(p.x + dx, p.y + dy) else p
  }

  function FollowAll(targets: set<Point>, dx: int, dy: int, points: seq<Point>): (r: seq<Point>)
    ensures |r| == |points|
    ensures forall i :: 0 <= i < |r| ==> r[i] == Follow(targets, dx, dy, points[i])
  {
    seq(|points|, i requires 0 <= i < |points| => Follow(targets, dx, dy, points[i]))
  }

  predicate Touches(targets: set<Point>, line: RawLine) {
    exists p :: p in ParseLinePoints(line) && p in targets
  }

  // ----- rewriting one line -----

  function ShiftPair(targets: set<Point>, dx: int, dy: int, pair: seq<int>): seq<int> {
    if |pair| < 2 || Point(pair[0], pair[1]) !in targets then pair
    else [pair[0] + dx, pair[1] + dy] + pair[2..]
  }

  function ShiftFlat(targets: set<Point>, dx: int, dy: int, ns: seq<int>): (r: seq<int>)
    ensures |r| == |ns|
  {
    if |ns| < 2 then ns
    else
      var p := Follow(targets, dx, dy, Point(ns[0], ns[1]));
      [p.x, p.y] + ShiftFlat(targets, dx, dy, ns[2..])
  }

  function ShiftPairs(targets: set<Point>, dx: int, dy: int, ps: seq<seq<int>>): seq<seq<int>> {
    if ps == [] then [] else [ShiftPair(targets, dx, dy, ps[0])] + ShiftPairs(targets, dx, dy, ps[1..])
  }

  function ShiftLine(targets: set<Point>, dx: int, dy: int, line: RawLine): RawLine {
    match line
    case Flat(ns) => Flat(ShiftFlat(targets, dx, dy, ns))
    case Pairs(ps) => Pairs(ShiftPairs(targets, dx, dy, ps))
  }

  /** Rewriting moves exactly the matched vertices, in both storage shapes. */
  lemma ShiftedVertices(targets: set<Point>, dx: int, dy: int, line: RawLine)
    ensures ParseLinePoints(ShiftLine(targets, dx, dy, line)) == FollowAll(targets, dx, dy, ParseLinePoints(line))
  {
    match line
    case Flat(ns) => ShiftedFlat(targets, dx, dy, ns);
    case Pairs(ps) => ShiftedPairs(targets, dx, dy, ps);
  }

  lemma {:induction false} ShiftedFlat(targets: set<Point>, dx: int, dy: int, ns: seq<int>)
    ensures ParseFlat(ShiftFlat(targets, dx, dy, ns)) == FollowAll(targets, dx, dy, ParseFlat(ns))
  {
    if |ns| >= 2 {
      var s := ShiftFlat(targets, dx, dy, ns);
      assert s[2..] == ShiftFlat(targets, dx, dy, ns[2..]);
      ShiftedFlat(targets, dx, dy, ns[2..]);
    }
  }

  lemma {:induction false} ShiftedPairs(targets: set<Point>, dx: int, dy: int, ps: seq<seq<int>>)
    ensures ParsePairs(ShiftPairs(targets, dx, dy, ps)) == FollowAll(targets, dx, dy, ParsePairs(ps))
  {
    if ps != [] {
      var s := ShiftPairs(targets, dx, dy, ps);
      assert s[1..] == ShiftPairs(targets, dx, dy, ps[1..]);
      ShiftedPairs(targets, dx, dy, ps[1..]);
    }
  }

  /** The rewritten line, or None when no vertex of the line is a target. */
  method ShiftWireLine(line: RawLine, targets: set<Point>, dx: int, dy: int) returns (r: Option<RawLine>)
    ensures r == if Touches(targets, line) then Some(ShiftLine(targets, dx, dy, line)) else None
  {
    match line
    case Pairs(ps) =>
      var changed, updated := ShiftPairList(ps, targets, dx, dy);
      r := if changed then Some(Pairs(updated)) else None;
    case Flat(ns) =>
      var flat := new int[|ns|](i requires 0 <= i < |ns| => ns[i]);
      var changed := ShiftNumbers(flat, ns, targets, dx, dy);
      r := if changed then Some(Flat(flat[..])) else None;
  }

  method ShiftPairList(ps: seq<seq<int>>, targets: set<Point>, dx: int, dy: int)
    returns (changed: bool, updated: seq<seq<int>>)
    ensures changed == Touches(targets, Pairs(ps))
    ensures updated == ShiftPairs(targets, dx, dy, ps)
  {
    changed, updated := false, [];
    assert ps[0..] == ps;
    for i := 0 to |ps|
      invariant updated + ShiftPairs(targets, dx, dy, ps[i..]) == ShiftPairs(targets, dx, dy, ps)
      invariant changed || Touches(targets, Pairs(ps[i..])) <==> Touches(targets, Pairs(ps))
    {
      PairListStep(ps, i, targets, dx, dy, updated);
      if |ps[i]| >= 2 && Point(ps[i][0], ps[i][1]) in targets {
        changed := true;
      }
      updated := updated + [ShiftPair(targets, dx, dy, ps[i])];
    }
  }

  lemma PairListStep(ps: seq<seq<int>>, i: nat, targets: set<Point>, dx: int, dy: int, done: seq<seq<int>>)
    requires i < |ps|
    ensures done + ShiftPairs(targets, dx, dy, ps[i..]) ==
      done + [ShiftPair(targets, dx, dy, ps[i])] + ShiftPairs(targets, dx, dy, ps[i + 1..])
    ensures Touches(targets, Pairs(ps[i..])) <==>
      (|ps[i]| >= 2 && Point(ps[i][0], ps[i][1]) in targets) || Touches(targets, Pairs(ps[i + 1..]))
  {
    assert ps[i..][0] == ps[i] && ps[i..][1..] == ps[i + 1..];
  }

  /** Edits one pair of the copied numbers in place. */
  method ShiftPairAt(flat: array<int>, i: nat, targets: set<Point>, dx: int, dy: int) returns (hit: bool)
    requires i + 1 < flat.Length
    modifies flat
    ensures hit == (old(Point(flat[i], flat[i + 1])) in targets)
    ensures var moved := Follow(targets, dx, dy, old(Point(flat[i], flat[i + 1])));
      && flat[..i + 2] == old(flat[..i]) + [moved.x, moved.y]
      && flat[i + 2..] == old(flat[i + 2..])
  {
    hit := Point(flat[i], flat[i + 1]) in targets;
    if hit {
      flat[i] := flat[i] + dx;
      flat[i + 1] := flat[i + 1] + dy;
    }
  }

  /** The first i numbers of `flat` are final, the rest untouched. */
  ghost predicate ShiftedUpTo(done: seq<int>, rest: seq<int>, changed: bool, ns: seq<int>, i: nat, targets: set<Point>,
                              dx: int, dy: int)
  {
    && i <= |ns| && rest == ns[i..]
    && done + ShiftFlat(targets, dx, dy, ns[i..]) == ShiftFlat(targets, dx, dy, ns)
    && (changed || Touches(targets, Flat(ns[i..])) <==> Touches(targets, Flat(ns)))
  }

  /** Edits the copied numbers in place, pair by pair. */
  method ShiftNumbers(flat: array<int>, ghost ns: seq<int>, targets: set<Point>, dx: int, dy: int)
    returns (changed: bool)
    requires flat[..] == ns
    modifies flat
    ensures flat[..] == ShiftFlat(targets, dx, dy, ns)
    ensures changed == Touches(targets, Flat(ns))
  {
    changed := false;
    var i := 0;
    while i + 1 < flat.Length
      invariant 0 <= i <= flat.Length == |ns|
      invariant ShiftedUpTo(flat[..i], flat[i..], changed, ns, i, targets, dx, dy)
    {
      assert flat[i] == flat[i..][0] && flat[i + 1] == flat[i..][1];
      PairStep(flat[..i], flat[i..], changed, ns, i, targets, dx, dy);
      assert flat[i + 2..] == flat[i..][2..];
      var hit := ShiftPairAt(flat, i, targets, dx, dy);
      changed := changed || hit;
      i := i + 2;
    }
    assert ShiftFlat(targets, dx, dy, ns[i..]) == ns[i..] && flat[..] == flat[..i] + flat[i..];
  }

  lemma PairStep(done: seq<int>, rest: seq<int>, changed: bool, ns: seq<int>, i: nat, targets: set<Point>, dx: int,
                 dy: int)
    requires i + 1 < |ns| && ShiftedUpTo(done, rest, changed, ns, i, targets, dx, dy)
    ensures var key := Point(rest[0], rest[1]);
      var moved := Follow(targets, dx, dy, key);
      ShiftedUpTo(done + [moved.x, moved.y], rest[2..], changed || key in targets, ns, i + 2, targets, dx, dy)
  {
    var key := Point(rest[0], rest[1]);
    var moved := Follow(targets, dx, dy, key);
    assert ns[i..][2..] == ns[i + 2..];
    assert ParseFlat(ns[i..]) == [key] + ParseFlat(ns[i + 2..]);
    assert done + ShiftFlat(targets, dx, dy, ns[i..]) ==
      done + [moved.x, moved.y] + ShiftFlat(targets, dx, dy, ns[i + 2..]);
  }

  // ----- rewriting the document -----

  ghost predicate UniqueIds(wires: seq<RawWire>) {
    forall i, j :: 0 <= i < j < |wires| && wires[i].id != "" ==> wires[i].id != wires[j].id
  }

  /** The editor's wires, updated one at a time by id: the line changes, the other fields stay. */
  class WireStore {
    var wires: seq<RawWire>

    constructor (wires: seq<RawWire>)
      ensures this.wires == wires
    {
      this.wires := wires;
    }

    method Modify(id: string, line: RawLine)
      modifies this
      ensures |wires| == |old(wires)|
      ensures forall k :: 0 <= k < |wires| ==>
        wires[k] == if old(wires)[k].id == id then old(wires)[k].(line := line) else old(wires)[k]
    {
      var before := wires;
      wires := seq(|before|, k requires 0 <= k < |before| =>
        if before[k].id == id then before[k].(line := line) else before[k]);
    }
  }

  /** The wire after following, if the editor accepts the rewrites `accepts` tells. */
  function Followed(w: RawWire, targets: set<Point>, dx: int, dy: int, accepts: string -> bool): RawWire {
    if Touches(targets, w.line) && w.id != "" && accepts(w.id) then w.(line := ShiftLine(targets, dx, dy, w.line))
      else w
  }

  function MovedIds(wires: seq<RawWire>, targets: set<Point>, accepts: string -> bool): seq<string> {
    if wires == [] then []
    else
      var w := wires[|wires| - 1];
      MovedIds(wires[..|wires| - 1], targets, accepts) +
      if Touches(targets, w.line) && w.id != "" && accepts(w.id) then [w.id] else []
  }

  function FailedIds(wires: seq<RawWire>, targets: set<Point>, accepts: string -> bool): seq<string> {
    if wires == [] then []
    else
      var w := wires[|wires| - 1];
      FailedIds(wires[..|wires| - 1], targets, accepts) +
      if !Touches(targets, w.line) then [] else if w.id == "" then ["<unknown>"] else if accepts(w.id) then []
        else [w.id]
  }

  function PointSet(points: seq<Point>): set<Point> {
    set p | p in points
  }

  /** One wire: shifts it if it touches an old pin point and writes it back, or reports it. */
  method FollowWire(store: WireStore, wire: RawWire, ghost i: nat, targets: set<Point>, dx: int, dy: int,
                    accepts: string -> bool)
    returns (moved: seq<string>, failed: seq<string>)
    requires UniqueIds(store.wires) && i < |store.wires| && store.wires[i] == wire
    modifies store
    ensures store.wires == old(store.wires)[i := Followed(wire, targets, dx, dy, accepts)]
    ensures moved == if Touches(targets, wire.line) && wire.id != "" && accepts(wire.id) then [wire.id] else []
    ensures failed == if !Touches(targets, wire.line) then [] else if wire.id == "" then ["<unknown>"]
      else if accepts(wire.id) then [] else [wire.id]
  {
    moved, failed := [], [];
    var shifted := ShiftWireLine(wire.line, targets, dx, dy);
    if shifted.None? {
      return;
    }
    if wire.id == "" {
      failed := ["<unknown>"];
    } else if accepts(wire.id) {
      store.Modify(wire.id, shifted.value);
      moved := [wire.id];
    } else {
      failed := [wire.id];
    }
  }

  /** The wires once the first i have followed. */
  function FollowedUpTo(wires: seq<RawWire>, i: nat, targets: set<Point>, dx: int, dy: int,
                        accepts: string -> bool): (r: seq<RawWire>)
    ensures |r| == |wires|
  {
    seq(|wires|, k requires 0 <= k < |wires| => if k < i then Followed(wires[k], targets, dx, dy, accepts)
      else wires[k])
  }

  lemma FollowedNext(wires: seq<RawWire>, i: nat, targets: set<Point>, dx: int, dy: int, accepts: string -> bool)
    requires i < |wires| && UniqueIds(wires)
    ensures var before := FollowedUpTo(wires, i, targets, dx, dy, accepts);
      && before[i] == wires[i] && UniqueIds(before)
      && before[i := Followed(wires[i], targets, dx, dy, accepts)] ==
           FollowedUpTo(wires, i + 1, targets, dx, dy, accepts)
  {
  }

  /** Rewrites every wire with a vertex on an old pin point. */
  method FollowConnectedWires(store: WireStore, oldPinPoints: seq<Point>, dx: int, dy: int, accepts: string -> bool)
    returns (moved: seq<string>, failed: seq<string>)
    requires UniqueIds(store.wires)
    modifies store
    ensures var idle := oldPinPoints == [] || (dx == 0 && dy == 0);
      && (idle ==> store.wires == old(store.wires) && moved == [] && failed == [])
      && (!idle ==> moved == MovedIds(old(store.wires), PointSet(oldPinPoints), accepts)
                    && failed == FailedIds(old(store.wires), PointSet(oldPinPoints), accepts))
    ensures |store.wires| == |old(store.wires)|
    ensures forall i :: 0 <= i < |store.wires| ==>
      store.wires[i] == if dx == 0 && dy == 0 then old(store.wires)[i]
                        else Followed(old(store.wires)[i], PointSet(oldPinPoints), dx, dy, accepts)
  {
    moved, failed := [], [];
    if oldPinPoints == [] || (dx == 0 && dy == 0) {
      return;
    }
    var targets := PointSet(oldPinPoints);
    var wires := store.wires;
    for i := 0 to |wires|
      invariant moved == MovedIds(wires[..i], targets, accepts)
      invariant failed == FailedIds(wires[..i], targets, accepts)
      invariant store.wires == FollowedUpTo(wires, i, targets, dx, dy, accepts)
    {
      assert wires[..i + 1][..i] == wires[..i];
      FollowedNext(wires, i, targets, dx, dy, accepts);
      var movedId, failedId := FollowWire(store, wires[i], i, targets, dx, dy, accepts);
      moved := moved + movedId;
      failed := failed + failedId;
    }
    assert wires[..|wires|] == wires;
  }

  lemma {:induction false} NoFailures(wires: seq<RawWire>, targets: set<Point>, accepts: string -> bool, i: nat)
    requires FailedIds(wires, targets, accepts) == [] && i < |wires| && Touches(targets, wires[i].line)
    ensures wires[i].id != "" && accepts(wires[i].id)
  {
    if i < |wires| - 1 {
      assert wires[i] == wires[..|wires| - 1][i];
      NoFailures(wires[..|wires| - 1], targets, accepts, i);
    }
  }

  // ----- moving a component -----

  function MovePlace(at: Option<Point>, dx: int, dy: int): Option<Point> {
    if at.Some? then Some(Point(at.value.x + dx, at.value.y + dy)) else None
  }

  /** The part's own place (that of its label, for a flag) and its pins move together. */
  function MovePart(part: Part, dx: int, dy: int): Part {
    var pins :=
      if part.pins.None? then None
      else Some(seq(|part.pins.value|, i requires 0 <= i < |part.pins.value| =>
        part.pins.value[i].(at := MovePlace(part.pins.value[i].at, dx, dy))));
    part.(at := MovePlace(part.at, dx, dy), pins := pins)
  }

  ghost function PinPoints(part: Part): set<Point> {
    if part.pins.None? then {} else set p | p in part.pins.value && p.at.Some? :: p.at.value
  }

  /** The wires as net inference reads them. */
  function Parsed(raws: seq<RawWire>): (r: seq<Wire>)
    ensures |r| == |raws|
    ensures forall i :: 0 <= i < |r| ==> r[i] == Wire(ParseLinePoints(raws[i].line), raws[i].net)
  {
    seq(|raws|, i requires 0 <= i < |raws| => Wire(ParseLinePoints(raws[i].line), raws[i].net))
  }

  datatype Sheet = Sheet(raws: seq<RawWire>, parts: seq<Part>)

  ghost function SheetScene(sheet: Sheet): Scene {
    SceneOf(Parsed(sheet.raws), sheet.parts)
  }

  /** The sheet after part `m` moved and every touched wire followed it. */
  ghost predicate MovedSheet(a: Sheet, b: Sheet, m: nat, dx: int, dy: int, accepts: string -> bool) {
    && m < |a.parts|
    && b.parts == a.parts[m := MovePart(a.parts[m], dx, dy)]
    && |b.raws| == |a.raws|
    && FailedIds(a.raws, PinPoints(a.parts[m]), accepts) == []
    && (forall i :: 0 <= i < |a.raws| ==> b.raws[i] == Followed(a.raws[i], PinPoints(a.parts[m]), dx, dy, accepts))
  }

  /** Every point inference can see on the sheet: vertices, flags and pins. */
  ghost function VisiblePoints(sheet: Sheet): set<Point> {
    SheetScene(sheet).points + set i, p | 0 <= i < |sheet.parts| && p in PinPoints(sheet.parts[i]) :: p
  }

  ghost predicate Vacated(oldPins: set<Point>, dx: int, dy: int, p: Point) {
    Point(p.x - dx, p.y - dy) in oldPins
  }

  /** The move is clean: only this part's pins and wire vertices stand on its old
      pin points, and nothing that stays put stands on a new one. */
  ghost predicate CleanMove(a: Sheet, m: nat, dx: int, dy: int)
    requires m < |a.parts|
  {
    var oldPins := PinPoints(a.parts[m]);
    && !a.parts[m].IsFlag()
    && (forall c :: c in a.parts && c.IsFlag() ==> c.at.value !in oldPins)
    && (forall i :: 0 <= i < |a.parts| && i != m ==> PinPoints(a.parts[i]) !! oldPins)
    && (forall p :: p in VisiblePoints(a) && p !in oldPins ==> !Vacated(oldPins, dx, dy, p))
  }

  /** Undoes Follow on the points a clean move can produce. */
  ghost function Unfollow(oldPins: set<Point>, dx: int, dy: int, p: Point): Point {
    if Vacated(oldPins, dx, dy, p) then Point(p.x - dx, p.y - dy) else p
  }

  lemma FollowInvertible(a: Sheet, m: nat, dx: int, dy: int, p: Point)
    requires m < |a.parts| && CleanMove(a, m, dx, dy) && p in VisiblePoints(a)
    ensures Unfollow(PinPoints(a.parts[m]), dx, dy, Follow(PinPoints(a.parts[m]), dx, dy, p)) == p
  {
    UnfollowFollow(PinPoints(a.parts[m]), dx, dy, p);
  }

  lemma UnfollowFollow(oldPins: set<Point>, dx: int, dy: int, p: Point)
    requires p !in oldPins ==> !Vacated(oldPins, dx, dy, p)
    ensures Unfollow(oldPins, dx, dy, Follow(oldPins, dx, dy, p)) == p
  {
  }

  function FollowWires(ws: seq<Wire>, oldPins: set<Point>, dx: int, dy: int): (r: seq<Wire>)
    ensures |r| == |ws|
    ensures forall i :: 0 <= i < |r| ==> r[i] == Wire(FollowAll(oldPins, dx, dy, ws[i].points), ws[i].net)
  {
    seq(|ws|, i requires 0 <= i < |ws| => Wire(FollowAll(oldPins, dx, dy, ws[i].points), ws[i].net))
  }

  /** Inference reads the moved sheet's wires as the old ones with followed vertices. */
  lemma MovedWires(a: Sheet, b: Sheet, m: nat, dx: int, dy: int, accepts: string -> bool)
    requires MovedSheet(a, b, m, dx, dy, accepts)
    ensures Parsed(b.raws) == FollowWires(Parsed(a.raws), PinPoints(a.parts[m]), dx, dy)
  {
    forall i | 0 <= i < |a.raws|
      ensures Parsed(b.raws)[i] == FollowWires(Parsed(a.raws), PinPoints(a.parts[m]), dx, dy)[i]
    {
      MovedVertices(a, b, m, dx, dy, accepts, i);
    }
  }

  lemma SegmentForward(ws: seq<Wire>, oldPins: set<Point>, dx: int, dy: int, l: Link)
    requires l in Segments(ws)
    ensures (Follow(oldPins, dx, dy, l.0), Follow(oldPins, dx, dy, l.1)) in Segments(FollowWires(ws, oldPins, dx, dy))
  {
    var vs := FollowWires(ws, oldPins, dx, dy);
    var w, j :| w in ws && 1 <= j < |w.points| && l == Segment(w, j);
    var i :| 0 <= i < |ws| && ws[i] == w;
    assert vs[i] in vs && Segment(vs[i], j) in Segments(vs);
  }

  lemma SegmentBackward(ws: seq<Wire>, oldPins: set<Point>, dx: int, dy: int, l: Link) returns (k: Link)
    requires l in Segments(FollowWires(ws, oldPins, dx, dy))
    ensures k in Segments(ws) && l == (Follow(oldPins, dx, dy, k.0), Follow(oldPins, dx, dy, k.1))
  {
    var vs := FollowWires(ws, oldPins, dx, dy);
    var v, j :| v in vs && 1 <= j < |v.points| && l == Segment(v, j);
    var i :| 0 <= i < |vs| && vs[i] == v;
    k := Segment(ws[i], j);
    assert ws[i] in ws;
  }

  lemma VertexForward(ws: seq<Wire>, oldPins: set<Point>, dx: int, dy: int, p: Point)
    requires p in Vertices(ws)
    ensures Follow(oldPins, dx, dy, p) in Vertices(FollowWires(ws, oldPins, dx, dy))
  {
    var vs := FollowWires(ws, oldPins, dx, dy);
    var w, j :| w in ws && 0 <= j < |w.points| && p == w.points[j];
    var i :| 0 <= i < |ws| && ws[i] == w;
    assert vs[i] in vs && vs[i].points[j] in Vertices(vs);
  }

  lemma VertexBackward(ws: seq<Wire>, oldPins: set<Point>, dx: int, dy: int, p: Point) returns (k: Point)
    requires p in Vertices(FollowWires(ws, oldPins, dx, dy))
    ensures k in Vertices(ws) && p == Follow(oldPins, dx, dy, k)
  {
    var vs := FollowWires(ws, oldPins, dx, dy);
    var v, j :| v in vs && 0 <= j < |v.points| && p == v.points[j];
    var i :| 0 <= i < |vs| && vs[i] == v;
    k := ws[i].points[j];
    assert ws[i] in ws;
  }

  lemma LabelForward(ws: seq<Wire>, oldPins: set<Point>, dx: int, dy: int, l: Label)
    requires l in WireLabels(ws)
    ensures (Follow(oldPins, dx, dy, l.0), l.1) in WireLabels(FollowWires(ws, oldPins, dx, dy))
  {
    var vs := FollowWires(ws, oldPins, dx, dy);
    var w :| w in ws && w.points != [] && w.net != "" && l == (w.points[0], w.net);
    var i :| 0 <= i < |ws| && ws[i] == w;
    assert vs[i] in vs && (vs[i].points[0], vs[i].net) in WireLabels(vs);
  }

  lemma LabelBackward(ws: seq<Wire>, oldPins: set<Point>, dx: int, dy: int, l: Label) returns (k: Label)
    requires l in WireLabels(FollowWires(ws, oldPins, dx, dy))
    ensures k in WireLabels(ws) && l == (Follow(oldPins, dx, dy, k.0), k.1)
  {
    var vs := FollowWires(ws, oldPins, dx, dy);
    var v :| v in vs && v.points != [] && v.net != "" && l == (v.points[0], v.net);
    var i :| 0 <= i < |vs| && vs[i] == v;
    k := (ws[i].points[0], ws[i].net);
    assert ws[i] in ws;
  }

  lemma MovedVertices(a: Sheet, b: Sheet, m: nat, dx: int, dy: int, accepts: string -> bool, i: nat)
    requires MovedSheet(a, b, m, dx, dy, accepts) && i < |a.raws|
    ensures b.raws[i].net == a.raws[i].net
    ensures ParseLinePoints(b.raws[i].line) == FollowAll(PinPoints(a.parts[m]), dx, dy, ParseLinePoints(a.raws[i].line))
  {
    var oldPins, points := PinPoints(a.parts[m]), ParseLinePoints(a.raws[i].line);
    if Touches(oldPins, a.raws[i].line) {
      NoFailures(a.raws, oldPins, accepts, i);
      ShiftedVertices(oldPins, dx, dy, a.raws[i].line);
    } else {
      forall k | 0 <= k < |points| ensures Follow(oldPins, dx, dy, points[k]) == points[k] {
        assert points[k] in points;
      }
    }
  }

  lemma MovedPoints(a: Sheet, b: Sheet, m: nat, dx: int, dy: int, accepts: string -> bool, p: Point)
    requires MovedSheet(a, b, m, dx, dy, accepts) && CleanMove(a, m, dx, dy) && p in VisiblePoints(a)
    ensures Follow(PinPoints(a.parts[m]), dx, dy, p) in SheetScene(b).points <==> p in SheetScene(a).points
  {
    var oldPins := PinPoints(a.parts[m]);
    var q, ws := Follow(oldPins, dx, dy, p), Parsed(a.raws);
    MovedWires(a, b, m, dx, dy, accepts);
    MovedFlags(a, b, m, dx, dy, accepts);
    FollowInvertible(a, m, dx, dy, p);
    if p in Vertices(ws) {
      VertexForward(ws, oldPins, dx, dy, p);
    }
    if q in Vertices(Parsed(b.raws)) {
      var k := VertexBackward(ws, oldPins, dx, dy, q);
      FollowInvertible(a, m, dx, dy, k);
    }
    if q in LabelPoints(FlagLabels(a.parts)) {
      FollowInvertible(a, m, dx, dy, q);
    }
  }

  lemma MovedFlags(a: Sheet, b: Sheet, m: nat, dx: int, dy: int, accepts: string -> bool)
    requires MovedSheet(a, b, m, dx, dy, accepts) && CleanMove(a, m, dx, dy)
    ensures FlagLabels(b.parts) == FlagLabels(a.parts)
    ensures forall l :: l in FlagLabels(a.parts) ==> l.0 !in PinPoints(a.parts[m])
  {
    assert !b.parts[m].IsFlag();
    forall c: Part | c.IsFlag() ensures c in a.parts <==> c in b.parts {
      if c in a.parts {
        var i :| 0 <= i < |a.parts| && a.parts[i] == c;
        assert b.parts[i] == c;
      }
      if c in b.parts {
        var i :| 0 <= i < |b.parts| && b.parts[i] == c;
        assert a.parts[i] == c;
      }
    }
  }

  lemma LabelsForward(a: Sheet, b: Sheet, m: nat, dx: int, dy: int, accepts: string -> bool, l: Label)
    requires MovedSheet(a, b, m, dx, dy, accepts) && CleanMove(a, m, dx, dy) && l in SheetScene(a).labels
    ensures (Follow(PinPoints(a.parts[m]), dx, dy, l.0), l.1) in SheetScene(b).labels
  {
    MovedWires(a, b, m, dx, dy, accepts);
    MovedFlags(a, b, m, dx, dy, accepts);
    if l in WireLabels(Parsed(a.raws)) {
      LabelForward(Parsed(a.raws), PinPoints(a.parts[m]), dx, dy, l);
    }
  }

  lemma LabelsBackward(a: Sheet, b: Sheet, m: nat, dx: int, dy: int, accepts: string -> bool, l: Label)
    returns (k: Label)
    requires MovedSheet(a, b, m, dx, dy, accepts) && CleanMove(a, m, dx, dy) && l in SheetScene(b).labels
    ensures k in SheetScene(a).labels && l == (Follow(PinPoints(a.parts[m]), dx, dy, k.0), k.1)
  {
    MovedWires(a, b, m, dx, dy, accepts);
    MovedFlags(a, b, m, dx, dy, accepts);
    k := l;
    if l in WireLabels(Parsed(b.raws)) {
      k := LabelBackward(Parsed(a.raws), PinPoints(a.parts[m]), dx, dy, l);
    }
  }

  /** Connectivity before and after a clean move correspond point by point. */
  lemma MovedConnectivity(a: Sheet, b: Sheet, m: nat, dx: int, dy: int, accepts: string -> bool, p: Point, q: Point)
    requires MovedSheet(a, b, m, dx, dy, accepts) && CleanMove(a, m, dx, dy)
    requires p in VisiblePoints(a) && q in VisiblePoints(a)
    ensures var oldPins := PinPoints(a.parts[m]);
      Connected(SheetScene(a).links, p, q) <==>
      Connected(SheetScene(b).links, Follow(oldPins, dx, dy, p), Follow(oldPins, dx, dy, q))
  {
    var oldPins, s, t := PinPoints(a.parts[m]), SheetScene(a), SheetScene(b);
    var f := (p: Point) => Follow(oldPins, dx, dy, p);
    var g := (p: Point) => Unfollow(oldPins, dx, dy, p);
    SceneGrounded(Parsed(a.raws), a.parts);
    MovedWires(a, b, m, dx, dy, accepts);
    forall l | l in s.links ensures (f(l.0), f(l.1)) in t.links {
      SegmentForward(Parsed(a.raws), oldPins, dx, dy, l);
    }
    forall l | l in t.links ensures (g(l.0), g(l.1)) in s.links {
      var k := SegmentBackward(Parsed(a.raws), oldPins, dx, dy, l);
      FollowInvertible(a, m, dx, dy, k.0);
      FollowInvertible(a, m, dx, dy, k.1);
      assert (g(l.0), g(l.1)) == k;
    }
    FollowInvertible(a, m, dx, dy, p);
    FollowInvertible(a, m, dx, dy, q);
    if Connected(s.links, p, q) {
      ConnectedImage(s.links, t.links, f, p, q);
    }
    if Connected(t.links, f(p), f(q)) {
      ConnectedImage(t.links, s.links, g, f(p), f(q));
    }
  }

  /** A class keeps its explicit labels through a clean move. */
  lemma MoveKeepsLabels(a: Sheet, b: Sheet, m: nat, dx: int, dy: int, accepts: string -> bool, p: Point)
    requires MovedSheet(a, b, m, dx, dy, accepts) && CleanMove(a, m, dx, dy) && p in VisiblePoints(a)
    ensures var s, t := SheetScene(a), SheetScene(b);
      ClassLabels(t.links, t.labels, Follow(PinPoints(a.parts[m]), dx, dy, p)) == ClassLabels(s.links, s.labels, p)
  {
    var oldPins, s, t := PinPoints(a.parts[m]), SheetScene(a), SheetScene(b);
    var f := (p: Point) => Follow(oldPins, dx, dy, p);
    SceneGrounded(Parsed(a.raws), a.parts);
    forall n | n in ClassLabels(s.links, s.labels, p) ensures n in ClassLabels(t.links, t.labels, f(p)) {
      var l :| l in s.labels && Connected(s.links, p, l.0) && l.1 == n;
      LabelsForward(a, b, m, dx, dy, accepts, l);
      MovedConnectivity(a, b, m, dx, dy, accepts, p, l.0);
    }
    forall n | n in ClassLabels(t.links, t.labels, f(p)) ensures n in ClassLabels(s.links, s.labels, p) {
      var l :| l in t.labels && Connected(t.links, f(p), l.0) && l.1 == n;
      var k := LabelsBackward(a, b, m, dx, dy, accepts, l);
      MovedConnectivity(a, b, m, dx, dy, accepts, p, k.0);
    }
  }

  lemma MoveKeepsNames(a: Sheet, b: Sheet, m: nat, dx: int, dy: int, accepts: string -> bool)
    requires MovedSheet(a, b, m, dx, dy, accepts) && CleanMove(a, m, dx, dy)
    ensures LabelNames(SheetScene(b).labels) == LabelNames(SheetScene(a).labels)
  {
    var s, t := SheetScene(a), SheetScene(b);
    forall n | n in LabelNames(s.labels) ensures n in LabelNames(t.labels) {
      var l :| l in s.labels && l.1 == n;
      LabelsForward(a, b, m, dx, dy, accepts, l);
    }
    forall n | n in LabelNames(t.labels) ensures n in LabelNames(s.labels) {
      var l :| l in t.labels && l.1 == n;
      var k := LabelsBackward(a, b, m, dx, dy, accepts, l);
    }
  }

  /** Main result: after a clean move two pins are read into a common net exactly
      when they were before, and each pin's class keeps its explicit labels. */
  lemma MovePreservesPartition(a: Sheet, b: Sheet, m: nat, dx: int, dy: int, accepts: string -> bool,
                               nets: Nets, before: PointOrder, p: Point, q: Point)
    requires StrictTotalOrder(before)
    requires MovedSheet(a, b, m, dx, dy, accepts) && CleanMove(a, m, dx, dy)
    requires p in VisiblePoints(a) && q in VisiblePoints(a)
    ensures
      var s, t, oldPins := SheetScene(a), SheetScene(b), PinPoints(a.parts[m]);
      var p', q' := Follow(oldPins, dx, dy, p), Follow(oldPins, dx, dy, q);
      && (ShareNet(t, TakenNames(nets, t), before, p', q') <==> ShareNet(s, TakenNames(nets, s), before, p, q))
      && ClassLabels(t.links, t.labels, p') == ClassLabels(s.links, s.labels, p)
  {
    var s, t, oldPins := SheetScene(a), SheetScene(b), PinPoints(a.parts[m]);
    var p', q' := Follow(oldPins, dx, dy, p), Follow(oldPins, dx, dy, q);
    MoveKeepsLabels(a, b, m, dx, dy, accepts, p);
    MoveKeepsLabels(a, b, m, dx, dy, accepts, q);
    MoveKeepsNames(a, b, m, dx, dy, accepts);
    MovedPoints(a, b, m, dx, dy, accepts, p);
    MovedPoints(a, b, m, dx, dy, accepts, q);
    MovedConnectivity(a, b, m, dx, dy, accepts, p, q);
    SceneGrounded(Parsed(a.raws), a.parts);
    SceneGrounded(Parsed(b.raws), b.parts);
    ShareNetIff(s, TakenNames(nets, s), before, p, q);
    ShareNetIff(t, TakenNames(nets, t), before, p', q');
  }

  /** Every located pin of the moved sheet is the followed image of its old self. */
  lemma PinsFollow(a: Sheet, b: Sheet, m: nat, dx: int, dy: int, accepts: string -> bool, i: nat, k: nat)
    requires MovedSheet(a, b, m, dx, dy, accepts) && CleanMove(a, m, dx, dy)
    requires i < |a.parts| && a.parts[i].pins.Some? && k < |a.parts[i].pins.value|
    ensures b.parts[i].pins.Some? && k < |b.parts[i].pins.value|
    ensures var was, now := a.parts[i].pins.value[k], b.parts[i].pins.value[k];
      && now.number == was.number
      && (was.at.None? ==> now.at.None?)
      && (was.at.Some? ==> was.at.value in VisiblePoints(a)
                           && now.at == Some(Follow(PinPoints(a.parts[m]), dx, dy, was.at.value)))
  {
    var was := a.parts[i].pins.value[k];
    if was.at.Some? {
      assert was in a.parts[i].pins.value;
      assert was.at.value in PinPoints(a.parts[i]);
    }
  }

  lemma PinForward(a: Sheet, b: Sheet, m: nat, dx: int, dy: int, accepts: string -> bool, node: NetNode)
    returns (image: NetNode)
    requires MovedSheet(a, b, m, dx, dy, accepts) && CleanMove(a, m, dx, dy) && node in PartNodes(a.parts)
    ensures image in PartNodes(b.parts) && SamePin(image, node) && node.at.Some? && node.at.value in VisiblePoints(a)
    ensures image.at == Some(Follow(PinPoints(a.parts[m]), dx, dy, node.at.value))
  {
    PartNodesContents(a.parts, node);
    var c :| c in a.parts && c.designator != "" && c.pins.Some? && node in PinNodes(c.designator, c.pins.value);
    PinNodesContents(c.designator, c.pins.value, node);
    var pin :| pin in c.pins.value && pin.number != "" && pin.at.Some? &&
      node == NetNode(c.designator, pin.number, pin.at, "coordinate-fallback");
    var i :| 0 <= i < |a.parts| && a.parts[i] == c;
    var k :| 0 <= k < |c.pins.value| && c.pins.value[k] == pin;
    PinsFollow(a, b, m, dx, dy, accepts, i, k);
    var moved := b.parts[i].pins.value[k];
    image := NetNode(c.designator, moved.number, moved.at, "coordinate-fallback");
    assert moved in b.parts[i].pins.value && b.parts[i] in b.parts;
    PinNodesContents(c.designator, b.parts[i].pins.value, image);
    PartNodesContents(b.parts, image);
  }

  lemma PinBackward(a: Sheet, b: Sheet, m: nat, dx: int, dy: int, accepts: string -> bool, image: NetNode)
    returns (node: NetNode)
    requires MovedSheet(a, b, m, dx, dy, accepts) && CleanMove(a, m, dx, dy) && image in PartNodes(b.parts)
    ensures node in PartNodes(a.parts) && SamePin(image, node) && node.at.Some? && node.at.value in VisiblePoints(a)
    ensures image.at == Some(Follow(PinPoints(a.parts[m]), dx, dy, node.at.value))
  {
    PartNodesContents(b.parts, image);
    var c :| c in b.parts && c.designator != "" && c.pins.Some? && image in PinNodes(c.designator, c.pins.value);
    PinNodesContents(c.designator, c.pins.value, image);
    var pin :| pin in c.pins.value && pin.number != "" && pin.at.Some? &&
      image == NetNode(c.designator, pin.number, pin.at, "coordinate-fallback");
    var i :| 0 <= i < |b.parts| && b.parts[i] == c;
    var k :| 0 <= k < |c.pins.value| && c.pins.value[k] == pin;
    assert a.parts[i].pins.Some? && |a.parts[i].pins.value| == |c.pins.value|;
    PinsFollow(a, b, m, dx, dy, accepts, i, k);
    var was := a.parts[i].pins.value[k];
    node := NetNode(c.designator, was.number, was.at, "coordinate-fallback");
    assert was in a.parts[i].pins.value && a.parts[i] in a.parts;
    PinNodesContents(c.designator, a.parts[i].pins.value, node);
    PartNodesContents(a.parts, node);
  }

  /** For a name that exists in the editor, being on that net is carrying its label. */
  lemma TakenNameIsLabel(s: Scene, taken: set<string>, before: PointOrder, p: Point, n: string)
    requires StrictTotalOrder(before) && Grounded(s) && n in taken
    ensures n in NetNames(s, taken, before, p) <==> n in ClassLabels(s.links, s.labels, p)
  {
    if p !in s.points {
      NamesElsewhere(s, taken, before, p);
      assert ClassLabels(s.links, s.labels, p) <= NetNames(s, taken, before, p);
    } else if Unlabelled(s, p) {
      var q := NamesOfUnlabelled(s, taken, before, p);
    } else {
      NamesOfLabelled(s, taken, before, p);
    }
  }

  /** Main result, read off the net map: a clean move changes no pin list of any
      net that existed before or is named by a label. */
  lemma MoveKeepsNamedNets(a: Sheet, b: Sheet, m: nat, dx: int, dy: int, accepts: string -> bool,
                           nets: Nets, before: PointOrder, n: string, component: string, pin: string)
    requires StrictTotalOrder(before)
    requires MovedSheet(a, b, m, dx, dy, accepts) && CleanMove(a, m, dx, dy)
    requires a.raws != [] && n in TakenNames(nets, SheetScene(a))
    ensures
      var was := InferredNets(nets, Parsed(a.raws), a.parts, before);
      var now := InferredNets(nets, Parsed(b.raws), b.parts, before);
      && n in was && n in now
      && (HasPin(now[n], component, pin) <==> HasPin(was[n], component, pin))
  {
    var s, t := SheetScene(a), SheetScene(b);
    var taken := TakenNames(nets, s);
    MoveKeepsNames(a, b, m, dx, dy, accepts);
    assert TakenNames(nets, t) == taken;
    InferredMembership(nets, Parsed(a.raws), a.parts, before, n, component, pin);
    InferredMembership(nets, Parsed(b.raws), b.parts, before, n, component, pin);
    SceneGrounded(Parsed(a.raws), a.parts);
    SceneGrounded(Parsed(b.raws), b.parts);
    if PinOnNet(s, taken, before, PartNodes(a.parts), n, component, pin) {
      var node := PinOnNetWitness(s, taken, before, PartNodes(a.parts), n, component, pin);
      var image := PinForward(a, b, m, dx, dy, accepts, node);
      MoveKeepsLabels(a, b, m, dx, dy, accepts, node.at.value);
      TakenNameIsLabel(s, taken, before, node.at.value, n);
      TakenNameIsLabel(t, taken, before, image.at.value, n);
      PinOnNetIntro(t, taken, before, PartNodes(b.parts), n, image);
    }
    if PinOnNet(t, taken, before, PartNodes(b.parts), n, component, pin) {
      var image := PinOnNetWitness(t, taken, before, PartNodes(b.parts), n, component, pin);
      var node := PinBackward(a, b, m, dx, dy, accepts, image);
      MoveKeepsLabels(a, b, m, dx, dy, accepts, node.at.value);
      TakenNameIsLabel(s, taken, before, node.at.value, n);
      TakenNameIsLabel(t, taken, before, image.at.value, n);
      PinOnNetIntro(s, taken, before, PartNodes(a.parts), n, node);
    }
  }

  lemma PinOnNetWitness(s: Scene, taken: set<string>, before: PointOrder, nodes: seq<NetNode>, n: string,
                        component: string, pin: string)
    returns (node: NetNode)
    requires PinOnNet(s, taken, before, nodes, n, component, pin)
    ensures node in nodes && node.component == component && node.pin == pin && node.at.Some?
    ensures n in NetNames(s, taken, before, node.at.value)
  {
    var i :| 0 <= i < |nodes| && nodes[i].component == component && nodes[i].pin == pin && nodes[i].at.Some?
             && n in NetNames(s, taken, before, nodes[i].at.value);
    node := nodes[i];
  }

  lemma PinOnNetIntro(s: Scene, taken: set<string>, before: PointOrder, nodes: seq<NetNode>, n: string, node: NetNode)
    requires node in nodes && node.at.Some? && n in NetNames(s, taken, before, node.at.value)
    ensures PinOnNet(s, taken, before, nodes, n, node.component, node.pin)
  {
    var i :| 0 <= i < |nodes| && nodes[i] == node;
  }

  // ----- the move operation -----

  function Locations(pins: seq<Pin>): (r: seq<Point>)
    ensures forall p :: p in r <==> exists k :: 0 <= k < |pins| && pins[k].at == Some(p)
  {
    if pins == [] then []
    else
      var rest := Locations(pins[1..]);
      assert forall p :: (exists k :: 0 <= k < |pins| && pins[k].at == Some(p)) <==>
        pins[0].at == Some(p) || exists k :: 0 <= k < |pins[1..]| && pins[1..][k].at == Some(p);
      if pins[0].at.Some? then [pins[0].at.value] + rest else rest
  }

  lemma LocationsArePinPoints(part: Part)
    requires part.pins.Some?
    ensures PointSet(Locations(part.pins.value)) == PinPoints(part)
  {
    forall p | p in PinPoints(part) ensures p in Locations(part.pins.value) {
      var pin :| pin in part.pins.value && pin.at.Some? && pin.at.value == p;
      var k :| 0 <= k < |part.pins.value| && part.pins.value[k] == pin;
      assert part.pins.value[k].at == Some(p);
    }
  }

  function Coordinate(requested: Option<int>, current: int): int {
    if requested.Some? then requested.value else current
  }

  /** Lets the wires on a part's pins follow it. An unreadable pin list leaves them where they are. */
  method FollowPart(store: WireStore, part: Part, dx: int, dy: int, accepts: string -> bool)
    returns (followed: seq<string>, failures: seq<string>)
    requires UniqueIds(store.wires) && (dx != 0 || dy != 0)
    modifies store
    ensures followed == MovedIds(old(store.wires), PinPoints(part), accepts)
    ensures failures == FailedIds(old(store.wires), PinPoints(part), accepts)
    ensures |store.wires| == |old(store.wires)|
    ensures forall i :: 0 <= i < |store.wires| ==>
      store.wires[i] == Followed(old(store.wires)[i], PinPoints(part), dx, dy, accepts)
  {
    followed, failures := [], [];
    var oldPinPoints := if part.pins.Some? then Locations(part.pins.value) else [];
    if part.pins.Some? {
      LocationsArePinPoints(part);
    }
    if oldPinPoints != [] {
      followed, failures := FollowConnectedWires(store, oldPinPoints, dx, dy, accepts);
    } else {
      assert PinPoints(part) == {};
      NothingTouched(store.wires, accepts);
    }
  }

  /** Wires after part `part` has moved: each touched wire that the editor accepts has
      followed, every other is as before, and the two reports say which. */
  ghost predicate WiresFollow(before: seq<RawWire>, after: seq<RawWire>, part: Part, dx: int, dy: int,
                              accepts: string -> bool,
                              followed: seq<string>, failures: seq<string>)
  {
    && |after| == |before|
    && (forall i :: 0 <= i < |after| ==> after[i] == Followed(before[i], PinPoints(part), dx, dy, accepts))
    && followed == MovedIds(before, PinPoints(part), accepts) && failures == FailedIds(before, PinPoints(part), accepts)
  }

  /** Repositions part m and lets its wires follow. The pin points are read before the part
      moves. Flags and ports take a path of their own, on which no wire follows. */
  method MoveComponent(store: WireStore, parts: seq<Part>, m: nat, oldX: int, oldY: int, x: Option<int>, y: Option<int>,
                       accepts: string -> bool)
    returns (next: seq<Part>, followed: seq<string>, failures: seq<string>)
    requires m < |parts| && UniqueIds(store.wires)
    modifies store
    ensures next == parts[m := MovePart(parts[m], Coordinate(x, oldX) - oldX, Coordinate(y, oldY) - oldY)]
    ensures parts[m].at == Some(Point(oldX, oldY)) ==>
      next[m].at == Some(Point(if x.Some? then x.value else oldX, if y.Some? then y.value else oldY))
    ensures (Coordinate(x, oldX) == oldX && Coordinate(y, oldY) == oldY) || parts[m].OfFlagKind() ==>
      store.wires == old(store.wires) && followed == [] && failures == []
    ensures !parts[m].OfFlagKind() && (Coordinate(x, oldX) != oldX || Coordinate(y, oldY) != oldY) ==>
      WiresFollow(old(store.wires), store.wires, parts[m], Coordinate(x, oldX) - oldX, Coordinate(y, oldY) - oldY,
        accepts,
                  followed, failures)
    ensures
      failures == [] && !parts[m].OfFlagKind() && (Coordinate(x, oldX) != oldX || Coordinate(y, oldY) != oldY) ==>
      MovedSheet(Sheet(old(store.wires), parts), Sheet(store.wires, next), m,
                 Coordinate(x, oldX) - oldX, Coordinate(y, oldY) - oldY, accepts)
  {
    followed, failures := [], [];
    var part := parts[m];
    var dx, dy := Coordinate(x, oldX) - oldX, Coordinate(y, oldY) - oldY;
    next := parts[m := MovePart(part, dx, dy)];
    if part.OfFlagKind() {
      return;
    }
    var movingPosition := (x.Some? || y.Some?) && (x != Some(oldX) || y != Some(oldY));
    if movingPosition && (dx != 0 || dy != 0) {
      followed, failures := FollowPart(store, part, dx, dy, accepts);
    }
  }

  lemma {:induction false} NothingTouched(wires: seq<RawWire>, accepts: string -> bool)
    ensures FailedIds(wires, {}, accepts) == [] && MovedIds(wires, {}, accepts) == []
  {
    if wires != [] {
      NothingTouched(wires[..|wires| - 1], accepts);
    }
  }
}
