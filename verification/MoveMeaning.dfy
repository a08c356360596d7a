/** What moving a component does to wires, pins and reports, read off the stored numbers. */
module MoveMeaning {
  import opened Basics
  import opened Connectivity
  import opened NetModel
  import opened WireFollow

  // ----- the vertices of a stored line -----

  lemma {:induction false} FlatLength(ns: seq<int>)
    ensures |ParseFlat(ns)| == |ns| / 2
  {
    if |ns| >= 2 {
      FlatLength(ns[2..]);
      assert |ns[2..]| / 2 == |ns| / 2 - 1;
    }
  }

  lemma {:induction false} FlatVertex(ns: seq<int>, k: nat)
    requires 2 * k + 1 < |ns|
    ensures k < |ParseFlat(ns)| && ParseFlat(ns)[k] == Point(ns[2 * k], ns[2 * k + 1])
    decreases k
  {
    if k > 0 {
      FlatVertex(ns[2..], k - 1);
      assert ns[2..][2 * (k - 1)] == ns[2 * k] && ns[2..][2 * (k - 1) + 1] == ns[2 * k + 1];
    }
  }

  /** A flat line holds one vertex for every two numbers, x before y. */
  lemma FlatVertices(ns: seq<int>)
    ensures |ParseLinePoints(Flat(ns))| == |ns| / 2
    ensures forall k: nat :: k < |ns| / 2 ==> ParseLinePoints(Flat(ns))[k] == Point(ns[2 * k], ns[2 * k + 1])
  {
    FlatLength(ns);
    forall k: nat | k < |ns| / 2 ensures ParseFlat(ns)[k] == Point(ns[2 * k], ns[2 * k + 1]) {
      FlatVertex(ns, k);
    }
  }

  lemma {:induction false} ParseNext(ps: seq<seq<int>>, p: seq<int>)
    ensures ParsePairs(ps + [p]) == ParsePairs(ps) + ParsePairs([p])
  {
    if ps == [] {
      assert [] + [p] == [p] && [] + ParsePairs([p]) == ParsePairs([p]);
    } else {
      var head := if |ps[0]| < 2 then [] else [Point(ps[0][0], ps[0][1])];
      assert (ps + [p])[0] == ps[0] && (ps + [p])[1..] == ps[1..] + [p];
      ParseNext(ps[1..], p);
      assert head + (ParsePairs(ps[1..]) + ParsePairs([p])) == head + ParsePairs(ps[1..]) + ParsePairs([p]);
    }
  }

  /** Entry i of the line has two numbers. */
  predicate IsPair(ps: seq<seq<int>>, i: nat) {
    i < |ps| && |ps[i]| >= 2
  }

  function PairAt(ps: seq<seq<int>>): nat -> bool {
    (i: nat) => IsPair(ps, i)
  }

  predicate VerticesAt(points: seq<Point>, ps: seq<seq<int>>, at: seq<nat>) {
    |points| == |at| && forall k :: 0 <= k < |at| ==>
      IsPair(ps, at[k]) && points[k] == Point(ps[at[k]][0], ps[at[k]][1])
  }

  lemma LastPair(ps: seq<seq<int>>, n: nat)
    requires 0 < n <= |ps|
    ensures ParsePairs(ps[..n]) == ParsePairs(ps[..n - 1]) +
      if IsPair(ps, n - 1) then [Point(ps[n - 1][0], ps[n - 1][1])] else []
  {
    var last := [ps[n - 1]];
    assert ps[..n] == ps[..n - 1] + last;
    ParseNext(ps[..n - 1], ps[n - 1]);
    assert last[1..] == [];
  }

  /** A line of pairs holds the first two numbers of every entry that has two, in order. */
  lemma {:induction false} PairVertices(ps: seq<seq<int>>, n: nat) returns (at: seq<nat>)
    requires n <= |ps|
    ensures Selects(at, n, PairAt(ps))
    ensures VerticesAt(ParseLinePoints(Pairs(ps[..n])), ps, at)
  {
    if n == 0 {
      at := [];
    } else {
      at := PairVertices(ps, n - 1);
      LastPair(ps, n);
      SelectsNext(at, n - 1, PairAt(ps));
      if IsPair(ps, n - 1) {
        at := at + [n - 1];
      }
    }
  }

  // ----- the numbers of a rewritten line -----

  /** Number k of a flat line after the rewrite: shifted if its pair is on a target, else as it was. */
  predicate FlatNumber(targets: set<Point>, dx: int, dy: int, ns: seq<int>, now: seq<int>, k: nat)
    requires k < |ns| == |now|
  {
    var first := k / 2 * 2;
    now[k] == ns[k] +
      if first + 1 < |ns| && Point(ns[first], ns[first + 1]) in targets then (if k == first then dx else dy) else 0
  }

  lemma {:induction false} FlatNumbers(targets: set<Point>, dx: int, dy: int, ns: seq<int>)
    ensures var now := ShiftFlat(targets, dx, dy, ns);
      |now| == |ns| && forall k: nat :: k < |ns| ==> FlatNumber(targets, dx, dy, ns, now, k)
  {
    if |ns| >= 2 {
      var now, rest := ShiftFlat(targets, dx, dy, ns), ShiftFlat(targets, dx, dy, ns[2..]);
      FlatNumbers(targets, dx, dy, ns[2..]);
      assert now[2..] == rest;
      forall k: nat | 2 <= k < |ns| ensures FlatNumber(targets, dx, dy, ns, now, k) {
        assert FlatNumber(targets, dx, dy, ns[2..], rest, k - 2);
        assert (k - 2) / 2 * 2 == k / 2 * 2 - 2;
        assert now[k] == rest[k - 2];
      }
    }
  }

  /** Entry by entry: the first two numbers of an entry on a target are shifted, the rest stays. */
  lemma {:induction false} PairNumbers(targets: set<Point>, dx: int, dy: int, ps: seq<seq<int>>)
    ensures var now := ShiftPairs(targets, dx, dy, ps);
      |now| == |ps| && forall k :: 0 <= k < |ps| ==>
        now[k] == if |ps[k]| >= 2 && Point(ps[k][0], ps[k][1]) in targets
                  then [ps[k][0] + dx, ps[k][1] + dy] + ps[k][2..] else ps[k]
  {
    if ps != [] {
      PairNumbers(targets, dx, dy, ps[1..]);
      assert forall k :: 1 <= k < |ps| ==> ps[k] == ps[1..][k - 1];
    }
  }

  /** The line keeps its shape, and each vertex on a target is moved by (dx, dy). */
  ghost predicate Rewritten(targets: set<Point>, dx: int, dy: int, was: RawLine, now: RawLine) {
    match was
    case Flat(ns) => now.Flat? && |now.numbers| == |ns| &&
      forall k: nat :: k < |ns| ==> FlatNumber(targets, dx, dy, ns, now.numbers, k)
    case Pairs(ps) => now.Pairs? && |now.pairs| == |ps| && forall k :: 0 <= k < |ps| ==>
      now.pairs[k] == if |ps[k]| >= 2 && Point(ps[k][0], ps[k][1]) in targets
                      then [ps[k][0] + dx, ps[k][1] + dy] + ps[k][2..] else ps[k]
  }

  lemma LineRewritten(targets: set<Point>, dx: int, dy: int, line: RawLine)
    ensures Rewritten(targets, dx, dy, line, ShiftLine(targets, dx, dy, line))
  {
    match line
    case Flat(ns) => FlatNumbers(targets, dx, dy, ns);
    case Pairs(ps) => PairNumbers(targets, dx, dy, ps);
  }

  // ----- the wires -----

  /** Some vertex of the wire is a target. */
  predicate Touched(w: RawWire, targets: set<Point>) {
    exists k :: 0 <= k < |ParseLinePoints(w.line)| && ParseLinePoints(w.line)[k] in targets
  }

  lemma TouchedMeans(w: RawWire, targets: set<Point>)
    ensures Touches(targets, w.line) <==> Touched(w, targets)
  {
    if Touches(targets, w.line) {
      var p :| p in ParseLinePoints(w.line) && p in targets;
      var k :| 0 <= k < |ParseLinePoints(w.line)| && ParseLinePoints(w.line)[k] == p;
    }
  }

  /** A touched wire with an id whose rewrite the editor accepts is rewritten; every other stays as it is. No
      wire loses its id, net or style. */
  lemma FollowedMeans(w: RawWire, targets: set<Point>, dx: int, dy: int, accepts: string -> bool)
    ensures var now := Followed(w, targets, dx, dy, accepts);
      && now.id == w.id && now.net == w.net && now.style == w.style
      && (Touched(w, targets) && w.id != "" && accepts(w.id) ==> Rewritten(targets, dx, dy, w.line, now.line))
      && (!(Touched(w, targets) && w.id != "" && accepts(w.id)) ==> now == w)
  {
    TouchedMeans(w, targets);
    LineRewritten(targets, dx, dy, w.line);
  }

  // ----- the reports -----

  /** Wire i follows. */
  predicate Follows(wires: seq<RawWire>, targets: set<Point>, accepts: string -> bool, i: nat) {
    i < |wires| && Touched(wires[i], targets) && wires[i].id != "" && accepts(wires[i].id)
  }

  /** Wire i should follow, but has no id or is not accepted. */
  predicate StaysBehind(wires: seq<RawWire>, targets: set<Point>, accepts: string -> bool, i: nat) {
    i < |wires| && Touched(wires[i], targets) && (wires[i].id == "" || !accepts(wires[i].id))
  }

  function FollowsAt(wires: seq<RawWire>, targets: set<Point>, accepts: string -> bool): nat -> bool {
    (i: nat) => Follows(wires, targets, accepts, i)
  }

  function StaysAt(wires: seq<RawWire>, targets: set<Point>, accepts: string -> bool): nat -> bool {
    (i: nat) => StaysBehind(wires, targets, accepts, i)
  }

  /** The report names these wires, one without an id as unknown. */
  predicate Names(report: seq<string>, wires: seq<RawWire>, at: seq<nat>) {
    |report| == |at| && forall k :: 0 <= k < |at| ==> at[k] < |wires| && report[k] == NameOf(wires[at[k]])
  }

  function NameOf(w: RawWire): string {
    if w.id == "" then "<unknown>" else w.id
  }

  lemma NamesNext(report: seq<string>, wires: seq<RawWire>, at: seq<nat>, n: nat)
    requires Names(report, wires, at) && n < |wires|
    ensures Names(report + [NameOf(wires[n])], wires, at + [n])
  {
  }

  lemma LastMoved(wires: seq<RawWire>, targets: set<Point>, accepts: string -> bool, n: nat)
    requires 0 < n <= |wires|
    ensures MovedIds(wires[..n], targets, accepts) == MovedIds(wires[..n - 1], targets, accepts) +
      if Follows(wires, targets, accepts, n - 1) then [NameOf(wires[n - 1])] else []
    ensures FailedIds(wires[..n], targets, accepts) == FailedIds(wires[..n - 1], targets, accepts) +
      if StaysBehind(wires, targets, accepts, n - 1) then [NameOf(wires[n - 1])] else []
  {
    assert wires[..n][..n - 1] == wires[..n - 1];
    TouchedMeans(wires[n - 1], targets);
  }

  /** The report of moved wires: exactly the wires that follow, in their order. */
  lemma {:induction false} MovedIdsMean(wires: seq<RawWire>, targets: set<Point>, accepts: string -> bool, n: nat)
    returns (at: seq<nat>)
    requires n <= |wires|
    ensures Selects(at, n, FollowsAt(wires, targets, accepts))
    ensures Names(MovedIds(wires[..n], targets, accepts), wires, at)
  {
    if n == 0 {
      at := [];
    } else {
      at := MovedIdsMean(wires, targets, accepts, n - 1);
      LastMoved(wires, targets, accepts, n);
      SelectsNext(at, n - 1, FollowsAt(wires, targets, accepts));
      if Follows(wires, targets, accepts, n - 1) {
        NamesNext(MovedIds(wires[..n - 1], targets, accepts), wires, at, n - 1);
        at := at + [n - 1];
      }
    }
  }

  /** The report of failures: exactly the wires that stay behind, in their order. */
  lemma {:induction false} FailedIdsMean(wires: seq<RawWire>, targets: set<Point>, accepts: string -> bool, n: nat)
    returns (at: seq<nat>)
    requires n <= |wires|
    ensures Selects(at, n, StaysAt(wires, targets, accepts))
    ensures Names(FailedIds(wires[..n], targets, accepts), wires, at)
  {
    if n == 0 {
      at := [];
    } else {
      at := FailedIdsMean(wires, targets, accepts, n - 1);
      LastMoved(wires, targets, accepts, n);
      SelectsNext(at, n - 1, StaysAt(wires, targets, accepts));
      if StaysBehind(wires, targets, accepts, n - 1) {
        NamesNext(FailedIds(wires[..n - 1], targets, accepts), wires, at, n - 1);
        at := at + [n - 1];
      }
    }
  }

  // ----- the part -----

  predicate Shifted(was: Option<Point>, now: Option<Point>, dx: int, dy: int) {
    match was
    case None => now == None
    case Some(p) => now == Some(Point(p.x + dx, p.y + dy))
  }

  /** The part keeps everything but its place and the places of its pins, which all move by (dx, dy). */
  lemma MovePartMeans(part: Part, dx: int, dy: int)
    ensures var now := MovePart(part, dx, dy);
      && now.kind == part.kind && now.net == part.net && now.designator == part.designator
      && Shifted(part.at, now.at, dx, dy)
      && (part.pins.None? <==> now.pins.None?)
      && (part.pins.Some? ==>
            |now.pins.value| == |part.pins.value| && forall k :: 0 <= k < |part.pins.value| ==>
              && now.pins.value[k].number == part.pins.value[k].number
              && Shifted(part.pins.value[k].at, now.pins.value[k].at, dx, dy))
  {
  }
}
