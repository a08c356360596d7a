/** The guard run before a wire is drawn: refuse a polyline that would touch a
    wire, pin or flag of another net. */
module CollisionGuard {
  import opened Basics
  import opened Connectivity
  import opened LayoutGeometry

  type Polyline = seq<Point>

  predicate AxisAligned(a: Point, b: Point) {
    a.x == b.x || a.y == b.y
  }

  predicate PointOnAxisAlignedSegment(p: Point, a: Point, b: Point) {
    if a.x == b.x then p.x == a.x && Within(p.y, a.y, b.y)
    else if a.y == b.y then p.y == a.y && Within(p.x, a.x, b.x)
    else p == a || p == b
  }

  function AxisAlignedSegmentIntersection(a1: Point, a2: Point, b1: Point, b2: Point): Option<Point> {
    var aVertical, aHorizontal := a1.x == a2.x, a1.y == a2.y;
    var bVertical, bHorizontal := b1.x == b2.x, b1.y == b2.y;
    var y := Max(Min(a1.y, a2.y), Min(b1.y, b2.y));
    var x := Max(Min(a1.x, a2.x), Min(b1.x, b2.x));
    if aVertical && bVertical && a1.x == b1.x && Within(y, a1.y, a2.y) && Within(y, b1.y, b2.y)
    then Some(Point(a1.x, y))
    else if aHorizontal && bHorizontal && a1.y == b1.y && Within(x, a1.x, a2.x) && Within(x, b1.x, b2.x)
    then Some(Point(x, a1.y))
    else if aVertical && bHorizontal && Within(a1.x, b1.x, b2.x) && Within(b1.y, a1.y, a2.y)
    then Some(Point(a1.x, b1.y))
    else if aHorizontal && bVertical && Within(b1.x, a1.x, a2.x) && Within(a1.y, b1.y, b2.y)
    then Some(Point(b1.x, a1.y))
    else None
  }

  /** On axis-aligned segments the shortcut test is the general one. */
  lemma AxisPointExact(p: Point, a: Point, b: Point)
    requires AxisAligned(a, b)
    ensures PointOnAxisAlignedSegment(p, a, b) <==> OnSegment(Spotted(p), a, b)
  {
    PointOnSegmentExact(p, a, b);
    if a.x == b.x {
      if Cross(a, b, p) == 0 && a.y != b.y {
        assert (b.y - a.y) * (p.x - a.x) == 0;
      }
    } else if Cross(a, b, p) == 0 {
      assert (b.x - a.x) * (p.y - a.y) == 0;
    }
  }

  /** Whatever is reported lies on both segments. */
  lemma IntersectionSound(a1: Point, a2: Point, b1: Point, b2: Point)
    ensures var r := AxisAlignedSegmentIntersection(a1, a2, b1, b2);
      r.Some? ==> AxisAligned(a1, a2) && AxisAligned(b1, b2)
                  && OnSegment(Spotted(r.value), a1, a2) && OnSegment(Spotted(r.value), b1, b2)
  {
    var r := AxisAlignedSegmentIntersection(a1, a2, b1, b2);
    if r.Some? {
      AxisPointExact(r.value, a1, a2);
      AxisPointExact(r.value, b1, b2);
    }
  }

  lemma AlongRange(a: Point, b: Point, t: real)
    requires 0.0 <= t <= 1.0
    ensures Min(a.x, b.x) as real <= Along(a, b, t).x <= Max(a.x, b.x) as real
    ensures Min(a.y, b.y) as real <= Along(a, b, t).y <= Max(a.y, b.y) as real
  {
    LerpRange(a.x, b.x, t);
    LerpRange(a.y, b.y, t);
  }

  /** Main result: the guard's segment test fires exactly when both segments are
      axis-aligned and share a point; oblique segments are never reported. */
  lemma IntersectionExact(a1: Point, a2: Point, b1: Point, b2: Point)
    ensures AxisAlignedSegmentIntersection(a1, a2, b1, b2).Some? <==>
      AxisAligned(a1, a2) && AxisAligned(b1, b2) && SharePoint(a1, a2, b1, b2)
  {
    IntersectionSound(a1, a2, b1, b2);
    if AxisAligned(a1, a2) && AxisAligned(b1, b2) && SharePoint(a1, a2, b1, b2) {
      var s :| OnSegment(s, a1, a2) && OnSegment(s, b1, b2);
      var t: real :| 0.0 <= t <= 1.0 && Along(a1, a2, t) == s;
      var u: real :| 0.0 <= u <= 1.0 && Along(b1, b2, u) == s;
      AlongRange(a1, a2, t);
      AlongRange(b1, b2, u);
    }
  }

  /** Of all points the two segments share, the lowest and leftmost is reported. */
  lemma IntersectionLowest(a1: Point, a2: Point, b1: Point, b2: Point, s: Spot)
    requires AxisAlignedSegmentIntersection(a1, a2, b1, b2).Some?
    requires OnSegment(s, a1, a2) && OnSegment(s, b1, b2)
    ensures var p := AxisAlignedSegmentIntersection(a1, a2, b1, b2).value; p.x as real <= s.x && p.y as real <= s.y
  {
    var t: real :| 0.0 <= t <= 1.0 && Along(a1, a2, t) == s;
    var u: real :| 0.0 <= u <= 1.0 && Along(b1, b2, u) == s;
    AlongRange(a1, a2, t);
    AlongRange(b1, b2, u);
  }

  // ----- polylines -----

  predicate PointOnPolyline(p: Point, points: Polyline) {
    if |points| == 1 then p == points[0]
    else exists i :: 0 <= i < |points| - 1 && PointOnAxisAlignedSegment(p, points[i], points[i + 1])
  }

  predicate Crosses(a: Polyline, b: Polyline, i: int, j: int)
    requires 0 <= i < |a| - 1 && 0 <= j < |b| - 1
  {
    AxisAlignedSegmentIntersection(a[i], a[i + 1], b[j], b[j + 1]).Some?
  }

  ghost predicate PolylinesCross(a: Polyline, b: Polyline) {
    exists i, j :: 0 <= i < |a| - 1 && 0 <= j < |b| - 1 && Crosses(a, b, i, j)
  }

  /** The pair of segments met first by the two loops, and the point found for it. */
  ghost predicate FirstCrossing(a: Polyline, b: Polyline, i: int, j: int, p: Point)
    requires 0 <= i < |a| - 1 && 0 <= j < |b| - 1
  {
    && Crosses(a, b, i, j) && AxisAlignedSegmentIntersection(a[i], a[i + 1], b[j], b[j + 1]) == Some(p)
    && forall k, l :: 0 <= k <= i && 0 <= l < |b| - 1 && (k < i || l < j) ==> !Crosses(a, b, k, l)
  }

  ghost predicate CrossesFirstAt(a: Polyline, b: Polyline, p: Point) {
    exists i, j :: 0 <= i < |a| - 1 && 0 <= j < |b| - 1 && FirstCrossing(a, b, i, j, p)
  }

  /** A reported crossing point lies on both polylines. */
  lemma CrossesAtBoth(a: Polyline, b: Polyline, p: Point)
    requires CrossesFirstAt(a, b, p)
    ensures OnPolyline(Spotted(p), a) && OnPolyline(Spotted(p), b)
  {
    var i, j :| 0 <= i < |a| - 1 && 0 <= j < |b| - 1 && FirstCrossing(a, b, i, j, p);
    IntersectionSound(a[i], a[i + 1], b[j], b[j + 1]);
  }

  method PolylineIntersection(a: Polyline, b: Polyline) returns (r: Option<Point>)
    ensures r.Some? <==> PolylinesCross(a, b)
    ensures r.Some? ==> CrossesFirstAt(a, b, r.value)
  {
    var i := 0;
    while i + 1 < |a|
      invariant 0 <= i
      invariant forall k, j :: 0 <= k < i && k < |a| - 1 && 0 <= j < |b| - 1 ==> !Crosses(a, b, k, j)
    {
      var j := 0;
      while j + 1 < |b|
        invariant 0 <= j
        invariant forall l :: 0 <= l < j && l < |b| - 1 ==> !Crosses(a, b, i, l)
      {
        r := AxisAlignedSegmentIntersection(a[i], a[i + 1], b[j], b[j + 1]);
        if r.Some? {
          assert FirstCrossing(a, b, i, j, r.value);
          return;
        }
        j := j + 1;
      }
      i := i + 1;
    }
    r := None;
  }

  datatype NetWire = NetWire(points: Polyline, net: string)

  /** A pin, flag or port whose net is known, at its coordinate. */
  datatype NetPoint = NetPoint(at: Point, net: string)

  datatype Collision = WireCollision(at: Point, net: string) | PinOrFlagCollision(at: Point, net: string)

  predicate Foreign(net: string, own: string) {
    net != "" && net != own
  }

  /** Wire i is the first foreign wire in the list that is crossed. */
  ghost predicate FirstWireHit(points: Polyline, netName: string, wires: seq<NetWire>, i: int, hit: Collision)
    requires 0 <= i < |wires|
  {
    && Foreign(wires[i].net, netName) && wires[i].net == hit.net && CrossesFirstAt(points, wires[i].points, hit.at)
    && forall j :: 0 <= j < i && Foreign(wires[j].net, netName) ==> !PolylinesCross(points, wires[j].points)
  }

  /** Entry i is the first foreign pin or flag in the list that lies on the polyline. */
  ghost predicate FirstPointHit(points: Polyline, netName: string, known: seq<NetPoint>, i: int, hit: Collision)
    requires 0 <= i < |known|
  {
    && Foreign(known[i].net, netName) && known[i] == NetPoint(hit.at, hit.net) && PointOnPolyline(hit.at, points)
    && forall j :: 0 <= j < i && Foreign(known[j].net, netName) ==> !PointOnPolyline(known[j].at, points)
  }

  ghost predicate MeetsForeignWire(points: Polyline, netName: string, wires: seq<NetWire>) {
    exists i :: 0 <= i < |wires| && Foreign(wires[i].net, netName) && PolylinesCross(points, wires[i].points)
  }

  ghost predicate MeetsForeignPoint(points: Polyline, netName: string, known: seq<NetPoint>) {
    exists i :: 0 <= i < |known| && Foreign(known[i].net, netName) && PointOnPolyline(known[i].at, points)
  }

  lemma WireMet(points: Polyline, netName: string, wires: seq<NetWire>, i: int)
    requires 0 <= i < |wires| && Foreign(wires[i].net, netName) && PolylinesCross(points, wires[i].points)
    ensures MeetsForeignWire(points, netName, wires)
  {
  }

  lemma NoWireMet(points: Polyline, netName: string, wires: seq<NetWire>)
    requires forall j :: 0 <= j < |wires| && Foreign(wires[j].net, netName) ==> !PolylinesCross(points, wires[j].points)
    ensures !MeetsForeignWire(points, netName, wires)
  {
  }

  method FirstForeignWire(points: Polyline, netName: string, wires: seq<NetWire>)
    returns (r: Option<Collision>, ghost at: nat)
    ensures r.Some? ==> r.value.WireCollision? && at < |wires| && FirstWireHit(points, netName, wires, at, r.value)
    ensures r.Some? <==> MeetsForeignWire(points, netName, wires)
  {
    at := 0;
    for i := 0 to |wires|
      invariant forall j :: 0 <= j < i && Foreign(wires[j].net, netName) ==> !PolylinesCross(points, wires[j].points)
    {
      if Foreign(wires[i].net, netName) {
        var hit := PolylineIntersection(points, wires[i].points);
        if hit.Some? {
          WireMet(points, netName, wires, i);
          return Some(WireCollision(hit.value, wires[i].net)), i;
        }
      }
    }
    NoWireMet(points, netName, wires);
    r := None;
  }

  method FirstForeignPoint(points: Polyline, netName: string, known: seq<NetPoint>) returns (r: Option<Collision>)
    ensures r.Some? <==> MeetsForeignPoint(points, netName, known)
    ensures r.Some? ==> r.value.PinOrFlagCollision? && Foreign(r.value.net, netName)
    ensures r.Some? ==> exists i :: 0 <= i < |known| && FirstPointHit(points, netName, known, i, r.value)
  {
    for i := 0 to |known|
      invariant forall j :: 0 <= j < i && Foreign(known[j].net, netName) ==> !PointOnPolyline(known[j].at, points)
    {
      if Foreign(known[i].net, netName) && PointOnPolyline(known[i].at, points) {
        assert FirstPointHit(points, netName, known, i, PinOrFlagCollision(known[i].at, known[i].net));
        return Some(PinOrFlagCollision(known[i].at, known[i].net));
      }
    }
    r := None;
  }

  /** The first foreign wire that is crossed, else the first foreign pin or flag that is met. */
  method FindForeignNetCollision(points: Polyline, netName: string, wires: seq<NetWire>, known: seq<NetPoint>)
    returns (r: Option<Collision>)
    ensures netName == "" || points == [] ==> r == None
    ensures netName != "" && points != [] ==>
      (r.Some? <==> MeetsForeignWire(points, netName, wires) || MeetsForeignPoint(points, netName, known))
    ensures r.Some? ==> r.value.net != "" && r.value.net != netName
    ensures r.None? && netName != "" && points != [] ==>
      && (forall i :: 0 <= i < |wires| && wires[i].net != "" && wires[i].net != netName ==>
            !PolylinesCross(points, wires[i].points))
      && (forall i :: 0 <= i < |known| && known[i].net != "" && known[i].net != netName ==>
            !PointOnPolyline(known[i].at, points))
    ensures r.Some? && r.value.WireCollision? ==>
      exists i :: 0 <= i < |wires| && FirstWireHit(points, netName, wires, i, r.value)
    ensures r.Some? && r.value.PinOrFlagCollision? ==>
      !MeetsForeignWire(points, netName, wires) &&
      exists i :: 0 <= i < |known| && FirstPointHit(points, netName, known, i, r.value)
  {
    if netName == "" || points == [] {
      return None;
    }
    ghost var at;
    r, at := FirstForeignWire(points, netName, wires);
    if r.None? {
      r := FirstForeignPoint(points, netName, known);
    }
  }

  ghost predicate Rectilinear(p: Polyline) {
    forall i :: 0 <= i < |p| - 1 ==> AxisAligned(p[i], p[i + 1])
  }

  ghost predicate OnPolyline(s: Spot, p: Polyline) {
    exists i :: 0 <= i < |p| - 1 && OnSegment(s, p[i], p[i + 1])
  }

  ghost predicate Touch(a: Polyline, b: Polyline) {
    exists s :: OnPolyline(s, a) && OnPolyline(s, b)
  }

  lemma CrossingTouches(a: Polyline, b: Polyline)
    requires PolylinesCross(a, b)
    ensures Touch(a, b)
  {
    var i, j :| 0 <= i < |a| - 1 && 0 <= j < |b| - 1 && Crosses(a, b, i, j);
    IntersectionExact(a[i], a[i + 1], b[j], b[j + 1]);
    var s :| OnSegment(s, a[i], a[i + 1]) && OnSegment(s, b[j], b[j + 1]);
    assert OnPolyline(s, a) && OnPolyline(s, b);
  }

  /** Main result: when the new polyline and a wire are rectilinear, the guard's
      crossing test is exactly "some point of the plane lies on both". */
  lemma CrossingExact(a: Polyline, b: Polyline)
    requires Rectilinear(a) && Rectilinear(b)
    ensures PolylinesCross(a, b) <==> Touch(a, b)
  {
    if PolylinesCross(a, b) {
      CrossingTouches(a, b);
    }
    if s :| OnPolyline(s, a) && OnPolyline(s, b) {
      var i :| 0 <= i < |a| - 1 && OnSegment(s, a[i], a[i + 1]);
      var j :| 0 <= j < |b| - 1 && OnSegment(s, b[j], b[j + 1]);
      assert SharePoint(a[i], a[i + 1], b[j], b[j + 1]);
      IntersectionExact(a[i], a[i + 1], b[j], b[j + 1]);
      assert Crosses(a, b, i, j);
    }
  }

  /** For a rectilinear polyline of two or more vertices the point test is exact. */
  lemma PointOnPolylineExact(p: Point, points: Polyline)
    requires Rectilinear(points) && |points| >= 2
    ensures PointOnPolyline(p, points) <==> OnPolyline(Spotted(p), points)
  {
    forall i | 0 <= i < |points| - 1
      ensures PointOnAxisAlignedSegment(p, points[i], points[i + 1]) <==>
        OnSegment(Spotted(p), points[i], points[i + 1])
    {
      AxisPointExact(p, points[i], points[i + 1]);
    }
  }

  lemma EndsOnly(p: Point, a: Point, b: Point)
    requires !AxisAligned(a, b)
    ensures PointOnAxisAlignedSegment(p, a, b) <==> p == a || p == b
  {
  }

  lemma EndsMet(a: Point, b: Point)
    ensures PointOnAxisAlignedSegment(a, a, b) && PointOnAxisAlignedSegment(b, a, b)
  {
  }

  /** The point lies on segment k, which is axis-aligned. */
  ghost predicate OnAligned(p: Point, points: Polyline, k: int)
    requires 0 <= k < |points| - 1
  {
    AxisAligned(points[k], points[k + 1]) && OnSegment(Spotted(p), points[k], points[k + 1])
  }

  /** For any polyline: a point is met exactly when it is a vertex or lies on an axis-aligned segment. */
  lemma PointMetIff(p: Point, points: Polyline)
    ensures PointOnPolyline(p, points) <==>
      p in points || exists k :: 0 <= k < |points| - 1 && OnAligned(p, points, k)
  {
    forall k | 0 <= k < |points| - 1
      ensures PointOnAxisAlignedSegment(p, points[k], points[k + 1]) <==>
        p == points[k] || p == points[k + 1] || OnAligned(p, points, k)
    {
      EndsMet(points[k], points[k + 1]);
      if AxisAligned(points[k], points[k + 1]) {
        AxisPointExact(p, points[k], points[k + 1]);
      } else {
        EndsOnly(p, points[k], points[k + 1]);
      }
    }
    if p in points && |points| > 1 {
      var i :| 0 <= i < |points| && points[i] == p;
      var k := if i + 1 < |points| then i else i - 1;
      assert PointOnAxisAlignedSegment(p, points[k], points[k + 1]);
    }
  }

  /** The guard misses no rectilinear wire that touches the polyline, and invents none. */
  ghost predicate GuardedExactly(points: Polyline) {
    forall wire :: Rectilinear(wire) ==> (PolylinesCross(points, wire) <==> Touch(points, wire))
  }

  /** A single drawn segment is guarded exactly against all rectilinear wires when, and
      only when, it is axis-aligned itself. */
  lemma SegmentGuardedIff(p: Point, q: Point)
    ensures GuardedExactly([p, q]) <==> AxisAligned(p, q)
  {
    if AxisAligned(p, q) {
      forall wire | Rectilinear(wire) ensures PolylinesCross([p, q], wire) <==> Touch([p, q], wire) {
        CrossingExact([p, q], wire);
      }
    } else {
      assert Along(p, q, 0.0) == Spotted(p);
      VertexOnObliqueOnly([p, q], p, 0);
    }
  }

  /** A drawn polyline is not guarded exactly if one of its points lies on none of its
      axis-aligned segments. */
  lemma VertexOnObliqueOnly(points: Polyline, v: Point, k: nat)
    requires k + 1 < |points| && OnSegment(Spotted(v), points[k], points[k + 1])
    requires forall i :: 0 <= i < |points| - 1 && AxisAligned(points[i], points[i + 1]) ==>
      !OnSegment(Spotted(v), points[i], points[i + 1])
    ensures !GuardedExactly(points)
  {
    var wire := [v, v];
    AxisPointExact(v, v, v);
    assert OnSegment(Spotted(v), wire[0], wire[1]);
    assert OnPolyline(Spotted(v), points) && OnPolyline(Spotted(v), wire);
    forall i, j | 0 <= i < |points| - 1 && 0 <= j < |wire| - 1 ensures !Crosses(points, wire, i, j) {
      var r := AxisAlignedSegmentIntersection(points[i], points[i + 1], wire[j], wire[j + 1]);
      IntersectionSound(points[i], points[i + 1], v, v);
      if r.Some? {
        AxisPointExact(r.value, v, v);
      }
    }
    assert Rectilinear(wire);
  }

  // ----- which polylines are guarded -----

  /** A grid point, or the grid edge from it to the right or upwards. */
  predicate UnitEdge(a: Point, b: Point) {
    b == a || b == Point(a.x + 1, a.y) || b == Point(a.x, a.y + 1)
  }

  ghost predicate AlignedMeets(points: Polyline, a: Point, b: Point) {
    exists k :: 0 <= k < |points| - 1 && AxisAligned(points[k], points[k + 1]) &&
      SharePoint(points[k], points[k + 1], a, b)
  }

  ghost predicate ObliqueMeets(points: Polyline, i: int, a: Point, b: Point)
    requires 0 <= i < |points| - 1
  {
    !AxisAligned(points[i], points[i + 1]) && SharePoint(points[i], points[i + 1], a, b)
  }

  /** Every grid point or edge that an oblique segment touches is touched by an
      axis-aligned segment too. */
  ghost predicate ObliqueCovered(points: Polyline) {
    forall i, a, b :: 0 <= i < |points| - 1 && UnitEdge(a, b) && ObliqueMeets(points, i, a, b) ==>
      AlignedMeets(points, a, b)
  }

  lemma CrossesAligned(points: Polyline, a: Point, b: Point)
    requires PolylinesCross(points, [a, b])
    ensures AlignedMeets(points, a, b)
  {
    var i, j :| 0 <= i < |points| - 1 && 0 <= j < |[a, b]| - 1 && Crosses(points, [a, b], i, j);
    IntersectionExact(points[i], points[i + 1], a, b);
  }

  lemma UncoveredMissed(points: Polyline, i: int, a: Point, b: Point)
    requires 0 <= i < |points| - 1 && UnitEdge(a, b) && SharePoint(points[i], points[i + 1], a, b)
    requires GuardedExactly(points)
    ensures AlignedMeets(points, a, b)
  {
    var s :| OnSegment(s, points[i], points[i + 1]) && OnSegment(s, a, b);
    assert OnPolyline(s, points);
    assert [a, b][0] == a && [a, b][1] == b && OnPolyline(s, [a, b]);
    assert Rectilinear([a, b]);
    CrossesAligned(points, a, b);
  }

  predicate InRange(v: real, a: int, b: int) {
    Min(a, b) as real <= v <= Max(a, b) as real
  }

  /** The fraction at which a coordinate is reached. */
  lemma Reached(v: real, a: int, b: int) returns (t: real)
    requires InRange(v, a, b)
    ensures 0.0 <= t <= 1.0 && Lerp(a, b, t) == v
  {
    if a == b {
      t := 0.0;
    } else {
      var d, n := (b - a) as real, v - a as real;
      t := n / d;
      assert t * d == n;
      if d > 0.0 {
        assert 0.0 <= n <= d;
      } else {
        assert d <= n <= 0.0;
      }
    }
  }

  lemma LerpConstant(a: int, t: real)
    ensures Lerp(a, a, t) == a as real
  {
  }

  lemma OnVertical(s: Spot, a: Point, b: Point)
    requires a.x == b.x
    ensures OnSegment(s, a, b) <==> s.x == a.x as real && InRange(s.y, a.y, b.y)
  {
    if OnSegment(s, a, b) {
      var t: real :| 0.0 <= t <= 1.0 && Along(a, b, t) == s;
      AlongRange(a, b, t);
    }
    if s.x == a.x as real && InRange(s.y, a.y, b.y) {
      var t := Reached(s.y, a.y, b.y);
      LerpConstant(a.x, t);
      assert Along(a, b, t) == s;
    }
  }

  lemma OnHorizontal(s: Spot, a: Point, b: Point)
    requires a.y == b.y
    ensures OnSegment(s, a, b) <==> s.y == a.y as real && InRange(s.x, a.x, b.x)
  {
    if OnSegment(s, a, b) {
      var t: real :| 0.0 <= t <= 1.0 && Along(a, b, t) == s;
      AlongRange(a, b, t);
    }
    if s.y == a.y as real && InRange(s.x, a.x, b.x) {
      var t := Reached(s.x, a.x, b.x);
      LerpConstant(a.y, t);
      assert Along(a, b, t) == s;
    }
  }

  /** The whole numbers next to a value, or the value itself if it is whole. */
  lemma NextTo(v: real, a: int, b: int) returns (low: int, high: int)
    requires InRange(v, a, b)
    ensures (high == low || high == low + 1) && InRange(v, low, high)
    ensures Min(a, b) <= low && high <= Max(a, b)
  {
    low := v.Floor;
    high := if low as real == v then low else low + 1;
  }

  /** The part of an axis-aligned segment around one of its points. */
  ghost predicate Around(s: Spot, a: Point, b: Point, p: Point, q: Point) {
    UnitEdge(p, q) && OnSegment(s, p, q) && forall r :: OnSegment(r, p, q) ==> OnSegment(r, a, b)
  }

  lemma VerticalAround(s: Spot, a: Point, b: Point) returns (p: Point, q: Point)
    requires a.x == b.x && OnSegment(s, a, b)
    ensures Around(s, a, b, p, q)
  {
    OnVertical(s, a, b);
    var low, high := NextTo(s.y, a.y, b.y);
    p, q := Point(a.x, low), Point(a.x, high);
    OnVertical(s, p, q);
    forall r | OnSegment(r, p, q) ensures OnSegment(r, a, b) {
      OnVertical(r, p, q);
      OnVertical(r, a, b);
    }
  }

  lemma HorizontalAround(s: Spot, a: Point, b: Point) returns (p: Point, q: Point)
    requires a.y == b.y && OnSegment(s, a, b)
    ensures Around(s, a, b, p, q)
  {
    OnHorizontal(s, a, b);
    var low, high := NextTo(s.x, a.x, b.x);
    p, q := Point(low, a.y), Point(high, a.y);
    OnHorizontal(s, p, q);
    forall r | OnSegment(r, p, q) ensures OnSegment(r, a, b) {
      OnHorizontal(r, p, q);
      OnHorizontal(r, a, b);
    }
  }

  lemma AlignedCrosses(points: Polyline, wire: Polyline, k: int, j: int)
    requires 0 <= k < |points| - 1 && 0 <= j < |wire| - 1
    requires AxisAligned(points[k], points[k + 1]) && AxisAligned(wire[j], wire[j + 1])
    requires SharePoint(points[k], points[k + 1], wire[j], wire[j + 1])
    ensures PolylinesCross(points, wire)
  {
    IntersectionExact(points[k], points[k + 1], wire[j], wire[j + 1]);
    assert Crosses(points, wire, k, j);
  }

  /** An oblique segment that touches the wire leads to an aligned one that does. */
  lemma ObliqueLeads(points: Polyline, i: int, a: Point, b: Point, s: Spot) returns (k: int)
    requires ObliqueCovered(points) && 0 <= i < |points| - 1 && !AxisAligned(points[i], points[i + 1])
    requires OnSegment(s, points[i], points[i + 1]) && OnSegment(s, a, b) && AxisAligned(a, b)
    ensures 0 <= k < |points| - 1 && AxisAligned(points[k], points[k + 1]) && SharePoint(points[k], points[k + 1], a, b)
  {
    var p, q;
    if a.x == b.x {
      p, q := VerticalAround(s, a, b);
    } else {
      p, q := HorizontalAround(s, a, b);
    }
    assert ObliqueMeets(points, i, p, q);
    k :| 0 <= k < |points| - 1 && AxisAligned(points[k], points[k + 1]) && SharePoint(points[k], points[k + 1], p, q);
    var r :| OnSegment(r, points[k], points[k + 1]) && OnSegment(r, p, q);
    assert OnSegment(r, a, b);
  }

  lemma TouchCrosses(points: Polyline, wire: Polyline, i: int, j: int, s: Spot)
    requires ObliqueCovered(points) && Rectilinear(wire)
    requires 0 <= i < |points| - 1 && OnSegment(s, points[i], points[i + 1])
    requires 0 <= j < |wire| - 1 && OnSegment(s, wire[j], wire[j + 1])
    ensures PolylinesCross(points, wire)
  {
    if AxisAligned(points[i], points[i + 1]) {
      AlignedCrosses(points, wire, i, j);
    } else {
      var k := ObliqueLeads(points, i, wire[j], wire[j + 1], s);
      AlignedCrosses(points, wire, k, j);
    }
  }

  /** Main result: a drawn polyline is guarded exactly against all rectilinear wires when,
      and only when, its oblique segments touch no grid point or edge on their own. */
  lemma GuardedIff(points: Polyline)
    ensures GuardedExactly(points) <==> ObliqueCovered(points)
  {
    if GuardedExactly(points) {
      forall i, a, b | 0 <= i < |points| - 1 && UnitEdge(a, b) && ObliqueMeets(points, i, a, b)
        ensures AlignedMeets(points, a, b)
      {
        UncoveredMissed(points, i, a, b);
      }
    }
    if ObliqueCovered(points) {
      forall wire | Rectilinear(wire) ensures PolylinesCross(points, wire) <==> Touch(points, wire) {
        if PolylinesCross(points, wire) {
          CrossingTouches(points, wire);
        }
        if s :| OnPolyline(s, points) && OnPolyline(s, wire) {
          var i :| 0 <= i < |points| - 1 && OnSegment(s, points[i], points[i + 1]);
          var j :| 0 <= j < |wire| - 1 && OnSegment(s, wire[j], wire[j + 1]);
          TouchCrosses(points, wire, i, j, s);
        }
      }
    }
  }

  lemma DiagonalSpot(t: real)
    ensures Along(Point(0, 0), Point(1, 1), t) == Spot(t, t)
  {
  }

  lemma OnGridLine(s: Spot, a: Point, b: Point) returns (n: int)
    requires OnSegment(s, a, b) && AxisAligned(a, b)
    ensures n as real == s.x || n as real == s.y
  {
    var u: real :| 0.0 <= u <= 1.0 && Along(a, b, u) == s;
    AlongRange(a, b, u);
    n := if a.x == b.x then a.x else a.y;
  }

  /** A point of the diagonal on an axis-aligned wire is one of its ends, so it lies on
      the neighbour there. */
  lemma DiagonalEnd(s: Spot, a: Point, b: Point) returns (k: int)
    requires OnSegment(s, Point(0, 0), Point(1, 1)) && OnSegment(s, a, b) && AxisAligned(a, b)
    ensures k == 0 || k == 2
    ensures if k == 0 then OnSegment(s, Point(0, -5), Point(0, 0)) else OnSegment(s, Point(1, 1), Point(1, 5))
  {
    var t: real :| 0.0 <= t <= 1.0 && Along(Point(0, 0), Point(1, 1), t) == s;
    DiagonalSpot(t);
    var n := OnGridLine(s, a, b);
    if n == 0 {
      k := 0;
      assert Along(Point(0, -5), Point(0, 0), 1.0) == s;
    } else {
      k := 2;
      assert Along(Point(1, 1), Point(1, 5), 0.0) == s;
    }
  }

  /** Not every oblique segment of a polyline is a gap: between axis-aligned neighbours
      a unit diagonal passes no grid line except at its ends. */
  lemma UnitDiagonalGuarded()
    ensures var points := [Point(0, -5), Point(0, 0), Point(1, 1), Point(1, 5)];
      !Rectilinear(points) && GuardedExactly(points)
  {
    var points := [Point(0, -5), Point(0, 0), Point(1, 1), Point(1, 5)];
    assert !AxisAligned(points[1], points[2]);
    forall wire | Rectilinear(wire) ensures PolylinesCross(points, wire) <==> Touch(points, wire) {
      if PolylinesCross(points, wire) {
        CrossingTouches(points, wire);
      }
      if s :| OnPolyline(s, points) && OnPolyline(s, wire) {
        var i :| 0 <= i < |points| - 1 && OnSegment(s, points[i], points[i + 1]);
        var j :| 0 <= j < |wire| - 1 && OnSegment(s, wire[j], wire[j + 1]);
        var k := i;
        if i == 1 {
          k := DiagonalEnd(s, wire[j], wire[j + 1]);
        }
        assert OnSegment(s, points[k], points[k + 1]);
        assert SharePoint(points[k], points[k + 1], wire[j], wire[j + 1]);
        IntersectionExact(points[k], points[k + 1], wire[j], wire[j + 1]);
        assert Crosses(points, wire, k, j);
      }
    }
  }

  /** The blind spot: an oblique wire through a rectilinear one goes unreported. */
  lemma ObliqueWireUnreported()
    ensures var a, b := [Point(0, 0), Point(2, 0)], [Point(0, -1), Point(2, 1)];
      && !PolylinesCross(a, b)
      && exists s :: OnPolyline(s, a) && OnPolyline(s, b)
  {
    var a, b := [Point(0, 0), Point(2, 0)], [Point(0, -1), Point(2, 1)];
    assert Along(a[0], a[1], 0.5) == Spot(1.0, 0.0) && Along(b[0], b[1], 0.5) == Spot(1.0, 0.0);
    assert OnSegment(Spot(1.0, 0.0), a[0], a[1]) && OnSegment(Spot(1.0, 0.0), b[0], b[1]);
    assert OnPolyline(Spot(1.0, 0.0), a) && OnPolyline(Spot(1.0, 0.0), b);
  }
}
