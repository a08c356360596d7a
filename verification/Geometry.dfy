/** Orientation tests for segments and rectangles on integer coordinates, where
    the tolerance tests of the layout code are exact. The reference notion is the
    set of real points of a closed segment or rectangle. */
module LayoutGeometry {
  import opened Basics
  import opened Connectivity

  /** Twice the signed area of the triangle a, b, c. */
  function Cross(a: Point, b: Point, c: Point): int {
    (b.x - a.x) * (c.y - a.y) - (b.y - a.y) * (c.x - a.x)
  }

  predicate Within(v: int, a: int, b: int) {
    Min(a, b) <= v <= Max(a, b)
  }

  predicate PointOnSegment(p: Point, a: Point, b: Point) {
    Cross(a, b, p) == 0 && Within(p.x, a.x, b.x) && Within(p.y, a.y, b.y)
  }

  predicate Opposite(d: int, e: int) {
    (d > 0 && e < 0) || (d < 0 && e > 0)
  }

  predicate SegmentsIntersect(a1: Point, a2: Point, b1: Point, b2: Point) {
    var d1, d2 := Cross(a1, a2, b1), Cross(a1, a2, b2);
    var d3, d4 := Cross(b1, b2, a1), Cross(b1, b2, a2);
    || (Opposite(d1, d2) && Opposite(d3, d4))
    || (d1 == 0 && PointOnSegment(b1, a1, a2))
    || (d2 == 0 && PointOnSegment(b2, a1, a2))
    || (d3 == 0 && PointOnSegment(a1, b1, b2))
    || (d4 == 0 && PointOnSegment(a2, b1, b2))
  }

  // ----- real points of a segment -----

  datatype Spot = Spot(x: real, y: real)

  /** The coordinate reached after the fraction t of the way from a to b. */
  function Lerp(a: int, b: int, t: real): real {
    a as real + t * (b - a) as real
  }

  function Along(a: Point, b: Point, t: real): Spot {
    Spot(Lerp(a.x, b.x, t), Lerp(a.y, b.y, t))
  }

  ghost predicate OnSegment(s: Spot, a: Point, b: Point) {
    exists t: real :: 0.0 <= t <= 1.0 && Along(a, b, t) == s
  }

  ghost predicate SharePoint(a1: Point, a2: Point, b1: Point, b2: Point) {
    exists s :: OnSegment(s, a1, a2) && OnSegment(s, b1, b2)
  }

  function Spotted(p: Point): Spot {
    Spot(p.x as real, p.y as real)
  }

  lemma MulReal(x: int, y: int)
    ensures (x * y) as real == x as real * y as real
  {
  }

  /** A lattice point passes the test exactly when it lies on the closed segment. */
  lemma PointOnSegmentExact(p: Point, a: Point, b: Point)
    ensures PointOnSegment(p, a, b) <==> OnSegment(Spotted(p), a, b)
  {
    if PointOnSegment(p, a, b) {
      OnSegmentFromTest(p, a, b);
    }
    if OnSegment(Spotted(p), a, b) {
      var t: real :| 0.0 <= t <= 1.0 && Along(a, b, t) == Spotted(p);
      TestFromOnSegment(p, a, b, t);
    }
  }

  lemma LerpWithin(v: int, a: int, b: int, t: real)
    requires 0.0 <= t <= 1.0 && Lerp(a, b, t) == v as real
    ensures Within(v, a, b)
  {
    var d := (b - a) as real;
    assert (v - a) as real == t * d;
    if a <= b {
      Scaled(t, d);
    } else {
      Scaled(t, -d);
      assert t * (-d) == -(t * d);
    }
  }

  lemma Scaled(t: real, d: real)
    requires 0.0 <= t <= 1.0 && d >= 0.0
    ensures 0.0 <= t * d <= d
  {
  }

  lemma TestFromOnSegment(p: Point, a: Point, b: Point, t: real)
    requires 0.0 <= t <= 1.0 && Along(a, b, t) == Spotted(p)
    ensures PointOnSegment(p, a, b)
  {
    LerpWithin(p.x, a.x, b.x, t);
    LerpWithin(p.y, a.y, b.y, t);
    var dx, dy := (b.x - a.x) as real, (b.y - a.y) as real;
    assert (p.x - a.x) as real == t * dx && (p.y - a.y) as real == t * dy;
    MulReal(b.x - a.x, p.y - a.y);
    MulReal(b.y - a.y, p.x - a.x);
    assert dx * (t * dy) == dy * (t * dx);
  }

  /** The fraction of the way at which a coordinate is reached. */
  lemma Fraction(v: int, a: int, b: int) returns (t: real)
    requires a != b && Within(v, a, b)
    ensures 0.0 <= t <= 1.0 && t * (b - a) as real == (v - a) as real && Lerp(a, b, t) == v as real
  {
    var d, n := (b - a) as real, (v - a) as real;
    t := n / d;
    assert t * d == n;
    if d > 0.0 {
      assert 0.0 <= n <= d;
    } else {
      assert d <= n <= 0.0;
    }
  }

  lemma OnSegmentFromTest(p: Point, a: Point, b: Point)
    requires PointOnSegment(p, a, b)
    ensures OnSegment(Spotted(p), a, b)
  {
    if a.x != b.x {
      var t := Fraction(p.x, a.x, b.x);
      CollinearFraction(p, a, b, t);
      assert Along(a, b, t) == Spotted(p);
    } else if a.y != b.y {
      var t := Fraction(p.y, a.y, b.y);
      assert Along(a, b, t) == Spotted(p);
    } else {
      assert Along(a, b, 0.0) == Spotted(p);
    }
  }

  /** On the line through a and b, the fraction in x is also the fraction in y. */
  lemma CollinearFraction(p: Point, a: Point, b: Point, t: real)
    requires Cross(a, b, p) == 0 && a.x != b.x && t * (b.x - a.x) as real == (p.x - a.x) as real
    ensures Lerp(a.y, b.y, t) == p.y as real
  {
    MulReal(b.x - a.x, p.y - a.y);
    MulReal(b.y - a.y, p.x - a.x);
    var dx, dy, ny := (b.x - a.x) as real, (b.y - a.y) as real, (p.y - a.y) as real;
    assert dx * ny == dy * (t * dx);
    assert dx * ny == dx * (t * dy);
    assert ny == t * dy;
  }

  // ----- segments -----

  /** Proper crossing: both pairs of orientations are opposite. */
  lemma CrossingShares(a1: Point, a2: Point, b1: Point, b2: Point)
    requires Opposite(Cross(a1, a2, b1), Cross(a1, a2, b2)) && Opposite(Cross(b1, b2, a1), Cross(b1, b2, a2))
    ensures SharePoint(a1, a2, b1, b2)
  {
    CrossIdentity(a1, a2, b1, b2);
    CrossingPoint(Cross(a1, a2, b1), Cross(a1, a2, b2), Cross(b1, b2, a1), Cross(b1, b2, a2), a1, a2, b1, b2);
  }

  lemma CrossingPoint(d1: int, d2: int, d3: int, d4: int, a1: Point, a2: Point, b1: Point, b2: Point)
    requires Opposite(d1, d2) && Opposite(d3, d4) && d2 - d1 == d3 - d4
    requires d3 * (a2.x - a1.x) + d1 * (b2.x - b1.x) == (d2 - d1) * (b1.x - a1.x)
    requires d3 * (a2.y - a1.y) + d1 * (b2.y - b1.y) == (d2 - d1) * (b1.y - a1.y)
    ensures SharePoint(a1, a2, b1, b2)
  {
    var t := ZeroBetween(d3, d4);
    var u := ZeroBetween(d1, d2);
    assert u * (d2 - d1) as real == -(u * (d1 - d2) as real);
    CrossingCoordinate(d1, d3, d2 - d1, t, u, a1.x, a2.x, b1.x, b2.x);
    CrossingCoordinate(d1, d3, d2 - d1, t, u, a1.y, a2.y, b1.y, b2.y);
    var s := Along(a1, a2, t);
    assert OnSegment(s, a1, a2);
    assert Along(b1, b2, u) == s;
    assert OnSegment(s, b1, b2);
  }

  lemma CrossIdentity(a1: Point, a2: Point, b1: Point, b2: Point)
    ensures var d1, d2, d3, d4 := Cross(a1, a2, b1), Cross(a1, a2, b2), Cross(b1, b2, a1), Cross(b1, b2, a2);
      && d2 - d1 == d3 - d4
      && d3 * (a2.x - a1.x) + d1 * (b2.x - b1.x) == (d2 - d1) * (b1.x - a1.x)
      && d3 * (a2.y - a1.y) + d1 * (b2.y - b1.y) == (d2 - d1) * (b1.y - a1.y)
  {
  }

  /** Where a linear function from c (at 0) to d (at 1) vanishes. */
  lemma ZeroBetween(c: int, d: int) returns (t: real)
    requires Opposite(c, d)
    ensures 0.0 <= t <= 1.0 && t * (c - d) as real == c as real
  {
    t := Fraction(0, c, d);
  }

  lemma CrossingCoordinate(d1: int, d3: int, k: int, t: real, u: real, a1: int, a2: int, b1: int, b2: int)
    requires k != 0 && t * k as real == d3 as real && u * k as real == -(d1 as real)
    requires d3 * (a2 - a1) + d1 * (b2 - b1) == k * (b1 - a1)
    ensures Lerp(a1, a2, t) == Lerp(b1, b2, u)
  {
    var K, A, B, W := k as real, (a2 - a1) as real, (b2 - b1) as real, (b1 - a1) as real;
    MulReal(d3, a2 - a1);
    MulReal(d1, b2 - b1);
    MulReal(k, b1 - a1);
    assert (t * K) * A - (u * K) * B == K * W;
    assert K * (t * A - u * B) == K * W;
    assert t * A - u * B == W;
  }

  /** A common point balances the orientations of each segment about the other. */
  lemma Balanced(dx: real, dy: real, wx: real, wy: real, ex: real, ey: real, t: real, u: real)
    requires t * dx == wx + u * ex && t * dy == wy + u * ey
    ensures (dx * wy - dy * wx) + u * (dx * ey - dy * ex) == 0.0
    ensures (wx * ey - wy * ex) - t * (dx * ey - dy * ex) == 0.0
  {
    assert dx * (t * dy) == dx * (wy + u * ey) && dy * (t * dx) == dy * (wx + u * ex);
    assert dx * (t * dy) == dy * (t * dx);
    assert dx * (u * ey) - dy * (u * ex) == u * (dx * ey - dy * ex);
    assert (t * dx) * ey - (t * dy) * ex == t * (dx * ey - dy * ex);
    assert (wx + u * ex) * ey - (wy + u * ey) * ex == wx * ey - wy * ex + (u * ex * ey - u * ey * ex);
  }

  /** The same on integers, with the products taken before the conversion. */
  lemma BalancedProducts(dx: int, dy: int, wx: int, wy: int, ex: int, ey: int, t: real, u: real)
    requires t * dx as real == wx as real + u * ex as real && t * dy as real == wy as real + u * ey as real
    ensures (dx * wy - dy * wx) as real + u * (dx * ey - dy * ex) as real == 0.0
    ensures (wx * ey - wy * ex) as real - t * (dx * ey - dy * ex) as real == 0.0
  {
    Balanced(dx as real, dy as real, wx as real, wy as real, ex as real, ey as real, t, u);
    MulReal(dx, wy);
    MulReal(dy, wx);
    MulReal(dx, ey);
    MulReal(dy, ex);
    MulReal(wx, ey);
    MulReal(wy, ex);
  }

  lemma AlongBalance(a1: int, a2: int, b1: int, b2: int, t: real, u: real)
    requires Lerp(a1, a2, t) == Lerp(b1, b2, u)
    ensures t * (a2 - a1) as real == (b1 - a1) as real + u * (b2 - b1) as real
  {
  }

  lemma NegatedProducts(ex: int, ey: int, wx: int, wy: int)
    ensures ex * (-wy) - ey * (-wx) == wx * ey - wy * ex
  {
    assert ex * (-wy) == -(ex * wy) && ey * (-wx) == -(ey * wx);
  }

  lemma DistributedProducts(dx: int, dy: int, wx: int, wy: int, ex: int, ey: int)
    ensures dx * (wy + ey) - dy * (wx + ex) - (dx * wy - dy * wx) == dx * ey - dy * ex
  {
    assert dx * (wy + ey) == dx * wy + dx * ey && dy * (wx + ex) == dy * wx + dy * ex;
  }

  /** The orientations as products of coordinate differences. */
  lemma CrossProducts(a1: Point, a2: Point, b1: Point, b2: Point)
    ensures var dx, dy, wx, wy := a2.x - a1.x, a2.y - a1.y, b1.x - a1.x, b1.y - a1.y;
      var ex, ey := b2.x - b1.x, b2.y - b1.y;
      && Cross(a1, a2, b1) == dx * wy - dy * wx && Cross(b1, b2, a1) == wx * ey - wy * ex
      && Cross(a1, a2, b2) - Cross(a1, a2, b1) == dx * ey - dy * ex
  {
    NegatedProducts(b2.x - b1.x, b2.y - b1.y, b1.x - a1.x, b1.y - a1.y);
    DistributedProducts(a2.x - a1.x, a2.y - a1.y, b1.x - a1.x, b1.y - a1.y, b2.x - b1.x, b2.y - b1.y);
    var wx, wy, ex, ey := b1.x - a1.x, b1.y - a1.y, b2.x - b1.x, b2.y - b1.y;
    assert a1.x - b1.x == -wx && a1.y - b1.y == -wy && b2.x - a1.x == wx + ex && b2.y - a1.y == wy + ey;
  }

  lemma Negated(t: real, k: int, j: int)
    requires j == -k
    ensures t * j as real == -(t * k as real)
  {
  }

  /** The orientations of the ends of each segment about the other, which meets it at the
      fraction t of the first and u of the second. */
  predicate InBalance(d1: int, d2: int, d3: int, d4: int, t: real, u: real) {
    d1 as real + u * (d2 - d1) as real == 0.0 && d3 as real + t * (d4 - d3) as real == 0.0 && d2 - d1 == d3 - d4
  }

  lemma BalancedCrosses(a1: Point, a2: Point, b1: Point, b2: Point, t: real, u: real)
    requires Along(a1, a2, t) == Along(b1, b2, u)
    ensures InBalance(Cross(a1, a2, b1), Cross(a1, a2, b2), Cross(b1, b2, a1), Cross(b1, b2, a2), t, u)
  {
    AlongBalance(a1.x, a2.x, b1.x, b2.x, t, u);
    AlongBalance(a1.y, a2.y, b1.y, b2.y, t, u);
    BalancedProducts(a2.x - a1.x, a2.y - a1.y, b1.x - a1.x, b1.y - a1.y, b2.x - b1.x, b2.y - b1.y, t, u);
    CrossProducts(a1, a2, b1, b2);
    CrossIdentity(a1, a2, b1, b2);
    Negated(t, Cross(a1, a2, b2) - Cross(a1, a2, b1), Cross(b1, b2, a2) - Cross(b1, b2, a1));
  }

  predicate OnSides(d1: int, d2: int, u: real) {
    Opposite(d1, d2) || (d1 == 0 && u == 0.0) || (d2 == 0 && u == 1.0) || (d1 == 0 && d2 == 0)
  }

  /** Values at both ends of a linear function that vanishes at the fraction u. */
  lemma Sides(d1: int, d2: int, u: real)
    requires 0.0 <= u <= 1.0 && d1 as real + u * (d2 - d1) as real == 0.0
    ensures OnSides(d1, d2, u)
  {
    var v, e1, e2 := 1.0 - u, d1 as real, d2 as real;
    assert v * e1 + u * e2 == 0.0 by {
      assert u * (d2 - d1) as real == u * e2 - u * e1;
      assert v * e1 == e1 - u * e1;
    }
    if d1 > 0 && d2 >= 0 {
      Scaled(u, e2);
      Scaled(v, e1);
      assert v * e1 == 0.0;
      assert v == 0.0;
    } else if d1 < 0 && d2 <= 0 {
      Scaled(u, -e2);
      Scaled(v, -e1);
      assert u * (-e2) == -(u * e2) && v * (-e1) == -(v * e1);
      assert v * e1 == 0.0;
      assert v == 0.0;
    }
  }

  lemma BothSides(d1: int, d2: int, d3: int, d4: int, t: real, u: real)
    requires 0.0 <= t <= 1.0 && 0.0 <= u <= 1.0 && InBalance(d1, d2, d3, d4, t, u)
    ensures OnSides(d1, d2, u) && OnSides(d3, d4, t) && d2 - d1 == d3 - d4
  {
    Sides(d1, d2, u);
    Sides(d3, d4, t);
  }

  /** Where the segments share a point, each has its ends on both sides of the other's line or touches it. */
  lemma SharedSides(a1: Point, a2: Point, b1: Point, b2: Point, t: real, u: real)
    requires 0.0 <= t <= 1.0 && 0.0 <= u <= 1.0 && Along(a1, a2, t) == Along(b1, b2, u)
    ensures OnSides(Cross(a1, a2, b1), Cross(a1, a2, b2), u) && OnSides(Cross(b1, b2, a1), Cross(b1, b2, a2), t)
    ensures Cross(a1, a2, b2) - Cross(a1, a2, b1) == Cross(b1, b2, a1) - Cross(b1, b2, a2)
  {
    BalancedCrosses(a1, a2, b1, b2, t, u);
    BothSides(Cross(a1, a2, b1), Cross(a1, a2, b2), Cross(b1, b2, a1), Cross(b1, b2, a2), t, u);
  }

  ghost predicate EndpointShared(a1: Point, a2: Point, b1: Point, b2: Point) {
    PointOnSegment(b1, a1, a2) || PointOnSegment(b2, a1, a2) || PointOnSegment(a1, b1, b2) || PointOnSegment(a2, b1, b2)
  }

  function Flip(p: Point): Point {
    Point(p.y, p.x)
  }

  lemma FlipTest(p: Point, a: Point, b: Point)
    ensures Cross(Flip(a), Flip(b), Flip(p)) == -Cross(a, b, p)
    ensures PointOnSegment(Flip(p), Flip(a), Flip(b)) <==> PointOnSegment(p, a, b)
  {
  }

  ghost predicate AllCollinear(a1: Point, a2: Point, b1: Point, b2: Point) {
    Cross(a1, a2, b1) == 0 && Cross(a1, a2, b2) == 0 && Cross(b1, b2, a1) == 0 && Cross(b1, b2, a2) == 0
  }

  /** A collinear point whose x lies in range lies on a non-vertical segment. */
  lemma InRangeOnSegment(p: Point, a: Point, b: Point)
    requires Cross(a, b, p) == 0 && a.x != b.x && Within(p.x, a.x, b.x)
    ensures PointOnSegment(p, a, b)
  {
    var t := Fraction(p.x, a.x, b.x);
    CollinearFraction(p, a, b, t);
    LerpWithin(p.y, a.y, b.y, t);
  }

  lemma LerpRange(a: int, b: int, t: real)
    requires 0.0 <= t <= 1.0
    ensures Min(a, b) as real <= Lerp(a, b, t) <= Max(a, b) as real
  {
    var d := (b - a) as real;
    if a <= b {
      Scaled(t, d);
    } else {
      Scaled(t, -d);
      assert t * (-d) == -(t * d);
    }
  }

  lemma CollinearOverlapByX(a1: Point, a2: Point, b1: Point, b2: Point, t: real, u: real)
    requires AllCollinear(a1, a2, b1, b2) && (a1.x != a2.x || b1.x != b2.x)
    requires 0.0 <= t <= 1.0 && 0.0 <= u <= 1.0 && Along(a1, a2, t) == Along(b1, b2, u)
    ensures EndpointShared(a1, a2, b1, b2)
  {
    LerpRange(a1.x, a2.x, t);
    LerpRange(b1.x, b2.x, u);
    if a1.x == a2.x {
      InRangeOnSegment(a1, b1, b2);
    } else if b1.x == b2.x {
      InRangeOnSegment(b1, a1, a2);
    } else if Min(a1.x, a2.x) <= Min(b1.x, b2.x) {
      var e := if b1.x <= b2.x then b1 else b2;
      InRangeOnSegment(e, a1, a2);
    } else {
      var e := if a1.x <= a2.x then a1 else a2;
      InRangeOnSegment(e, b1, b2);
    }
  }

  lemma CollinearOverlap(a1: Point, a2: Point, b1: Point, b2: Point, t: real, u: real)
    requires AllCollinear(a1, a2, b1, b2)
    requires 0.0 <= t <= 1.0 && 0.0 <= u <= 1.0 && Along(a1, a2, t) == Along(b1, b2, u)
    ensures EndpointShared(a1, a2, b1, b2)
  {
    if a1.x != a2.x || b1.x != b2.x {
      CollinearOverlapByX(a1, a2, b1, b2, t, u);
    } else if a1.y != a2.y || b1.y != b2.y {
      FlipTest(b1, a1, a2);
      FlipTest(b2, a1, a2);
      FlipTest(a1, b1, b2);
      FlipTest(a2, b1, b2);
      CollinearOverlapByX(Flip(a1), Flip(a2), Flip(b1), Flip(b2), t, u);
    } else {
      assert Lerp(a1.x, a2.x, t) == a1.x as real && Lerp(b1.x, b2.x, u) == b1.x as real;
      assert Lerp(a1.y, a2.y, t) == a1.y as real && Lerp(b1.y, b2.y, u) == b1.y as real;
    }
  }

  /** A common point inside both segments: a proper crossing, or all four on one line. */
  lemma InsideBoth(d1: int, d2: int, d3: int, d4: int, t: real, u: real)
    requires 0.0 < t < 1.0 && 0.0 < u < 1.0 && OnSides(d1, d2, u) && OnSides(d3, d4, t) && d2 - d1 == d3 - d4
    ensures (Opposite(d1, d2) && Opposite(d3, d4)) || (d1 == 0 && d2 == 0 && d3 == 0 && d4 == 0)
  {
  }

  lemma SharedInside(a1: Point, a2: Point, b1: Point, b2: Point, t: real, u: real)
    requires 0.0 < t < 1.0 && 0.0 < u < 1.0 && Along(a1, a2, t) == Along(b1, b2, u)
    ensures (Opposite(Cross(a1, a2, b1), Cross(a1, a2, b2)) && Opposite(Cross(b1, b2, a1), Cross(b1, b2, a2)))
      || EndpointShared(a1, a2, b1, b2)
  {
    SharedSides(a1, a2, b1, b2, t, u);
    InsideBoth(Cross(a1, a2, b1), Cross(a1, a2, b2), Cross(b1, b2, a1), Cross(b1, b2, a2), t, u);
    if AllCollinear(a1, a2, b1, b2) {
      CollinearOverlap(a1, a2, b1, b2, t, u);
    }
  }

  lemma EndOnOther(b1: Point, b2: Point, a1: Point, a2: Point, t: real, u: real)
    requires 0.0 <= t <= 1.0 && (u == 0.0 || u == 1.0) && Along(a1, a2, t) == Along(b1, b2, u)
    ensures PointOnSegment(b1, a1, a2) || PointOnSegment(b2, a1, a2)
  {
    LerpEnds(b1.x, b2.x, u);
    LerpEnds(b1.y, b2.y, u);
    TestFromOnSegment(if u == 0.0 then b1 else b2, a1, a2, t);
  }

  lemma LerpEnds(a: int, b: int, u: real)
    ensures u == 0.0 ==> Lerp(a, b, u) == a as real
    ensures u == 1.0 ==> Lerp(a, b, u) == b as real
  {
  }

  lemma SharedMeansIntersect(a1: Point, a2: Point, b1: Point, b2: Point)
    requires SharePoint(a1, a2, b1, b2)
    ensures SegmentsIntersect(a1, a2, b1, b2)
  {
    var s :| OnSegment(s, a1, a2) && OnSegment(s, b1, b2);
    var t: real :| 0.0 <= t <= 1.0 && Along(a1, a2, t) == s;
    var u: real :| 0.0 <= u <= 1.0 && Along(b1, b2, u) == s;
    if u == 0.0 || u == 1.0 {
      EndOnOther(b1, b2, a1, a2, t, u);
    } else if t == 0.0 || t == 1.0 {
      EndOnOther(a1, a2, b1, b2, u, t);
    } else {
      SharedInside(a1, a2, b1, b2, t, u);
    }
    IntersectCases(a1, a2, b1, b2);
  }

  lemma IntersectCases(a1: Point, a2: Point, b1: Point, b2: Point)
    ensures SegmentsIntersect(a1, a2, b1, b2) <==>
      (Opposite(Cross(a1, a2, b1), Cross(a1, a2, b2)) && Opposite(Cross(b1, b2, a1), Cross(b1, b2, a2)))
      || EndpointShared(a1, a2, b1, b2)
  {
  }

  /** Main result: the orientation tests hold exactly when the closed segments
      share a point, degenerate and collinear segments included. */
  lemma SegmentsIntersectExact(a1: Point, a2: Point, b1: Point, b2: Point)
    ensures SegmentsIntersect(a1, a2, b1, b2) <==> SharePoint(a1, a2, b1, b2)
  {
    if SegmentsIntersect(a1, a2, b1, b2) {
      if Opposite(Cross(a1, a2, b1), Cross(a1, a2, b2)) && Opposite(Cross(b1, b2, a1), Cross(b1, b2, a2)) {
        CrossingShares(a1, a2, b1, b2);
      } else {
        EndpointSharedShares(a1, a2, b1, b2);
      }
    }
    if SharePoint(a1, a2, b1, b2) {
      SharedMeansIntersect(a1, a2, b1, b2);
    }
  }

  lemma EndpointSharedShares(a1: Point, a2: Point, b1: Point, b2: Point)
    requires EndpointShared(a1, a2, b1, b2)
    ensures SharePoint(a1, a2, b1, b2)
  {
    PointOnSegmentExact(b1, a1, a2);
    PointOnSegmentExact(b2, a1, a2);
    PointOnSegmentExact(a1, b1, b2);
    PointOnSegmentExact(a2, b1, b2);
    Ends(a1, a2);
    Ends(b1, b2);
  }

  lemma Ends(a: Point, b: Point)
    ensures OnSegment(Spotted(a), a, b) && OnSegment(Spotted(b), a, b)
  {
    assert Along(a, b, 0.0) == Spotted(a);
    assert Along(a, b, 1.0) == Spotted(b);
  }

  // ----- rectangles -----

  datatype Rect = Rect(x: int, y: int, width: int, height: int)

  predicate PointInsideRect(p: Point, r: Rect) {
    r.x <= p.x <= r.x + r.width && r.y <= p.y <= r.y + r.height
  }

  predicate SegmentIntersectsRect(a: Point, b: Point, r: Rect) {
    var topLeft, topRight := Point(r.x, r.y + r.height), Point(r.x + r.width, r.y + r.height);
    var bottomLeft, bottomRight := Point(r.x, r.y), Point(r.x + r.width, r.y);
    || PointInsideRect(a, r) || PointInsideRect(b, r)
    || SegmentsIntersect(a, b, bottomLeft, bottomRight)
    || SegmentsIntersect(a, b, bottomRight, topRight)
    || SegmentsIntersect(a, b, topRight, topLeft)
    || SegmentsIntersect(a, b, topLeft, bottomLeft)
  }

  ghost predicate InRect(s: Spot, r: Rect) {
    r.x as real <= s.x <= (r.x + r.width) as real && r.y as real <= s.y <= (r.y + r.height) as real
  }

  ghost predicate MeetsRect(a: Point, b: Point, r: Rect) {
    exists s :: OnSegment(s, a, b) && InRect(s, r)
  }

  /** Between two fractions at which a coordinate is in range it stays in range. */
  lemma StaysInRange(a: int, b: int, lo: int, hi: int, t0: real, t1: real, t: real)
    requires t0 <= t <= t1
    requires lo as real <= Lerp(a, b, t0) <= hi as real && lo as real <= Lerp(a, b, t1) <= hi as real
    ensures lo as real <= Lerp(a, b, t) <= hi as real
  {
    var d := (b - a) as real;
    if d >= 0.0 {
      RisingBetween(a as real, d, lo as real, hi as real, t0, t1, t);
    } else {
      FallingBetween(a as real, d, lo as real, hi as real, t0, t1, t);
    }
  }

  lemma RealProduct(a: real, b: real)
    requires a >= 0.0 && b >= 0.0
    ensures a * b >= 0.0
  {
  }

  lemma Rising(p: real, d: real, a: real, b: real)
    requires a <= b && d >= 0.0
    ensures p + a * d <= p + b * d
  {
    RealProduct(b - a, d);
    assert b * d == a * d + (b - a) * d;
  }

  lemma RisingBetween(p: real, d: real, lo: real, hi: real, t0: real, t1: real, t: real)
    requires d >= 0.0 && t0 <= t <= t1 && lo <= p + t0 * d && p + t1 * d <= hi
    ensures lo <= p + t * d <= hi
  {
    Rising(p, d, t0, t);
    Rising(p, d, t, t1);
  }

  lemma FallingBetween(p: real, d: real, lo: real, hi: real, t0: real, t1: real, t: real)
    requires d <= 0.0 && t0 <= t <= t1 && lo <= p + t1 * d && p + t0 * d <= hi
    ensures lo <= p + t * d <= hi
  {
    RisingBetween(-p, -d, -hi, -lo, t0, t1, t);
  }

  /** The first fraction at which a coordinate that is in range at t comes into range:
      0 if it starts there, otherwise a fraction at which it is on a border. */
  lemma Entry(a: int, b: int, lo: int, hi: int, t: real) returns (e: real)
    requires 0.0 <= t <= 1.0 && lo as real <= Lerp(a, b, t) <= hi as real
    ensures 0.0 <= e <= t && lo as real <= Lerp(a, b, e) <= hi as real
    ensures lo <= a <= hi ==> e == 0.0
    ensures !(lo <= a <= hi) ==> Lerp(a, b, e) == lo as real || Lerp(a, b, e) == hi as real
  {
    if lo <= a <= hi {
      e := 0.0;
    } else {
      var border := if a < lo then lo else hi;
      var d, n := (b - a) as real, (border - a) as real;
      if a < lo {
        assert t * d >= n > 0.0;
        assert d > 0.0;
      } else {
        assert t * d <= n < 0.0;
        assert d < 0.0;
      }
      e := n / d;
      assert e * d == n;
      assert (t - e) * d == t * d - n;
    }
  }

  lemma OnVerticalEdge(s: Spot, x: int, y0: int, y1: int)
    requires s.x == x as real && y0 as real <= s.y <= y1 as real
    ensures OnSegment(s, Point(x, y0), Point(x, y1)) && OnSegment(s, Point(x, y1), Point(x, y0))
  {
    var d := (y1 - y0) as real;
    var t := if d == 0.0 then 0.0 else (s.y - y0 as real) / d;
    assert t * d == s.y - y0 as real;
    assert 0.0 <= t <= 1.0;
    assert Along(Point(x, y0), Point(x, y1), t) == s;
    assert (1.0 - t) * (-d) == -d + t * d;
    assert Along(Point(x, y1), Point(x, y0), 1.0 - t) == s;
  }

  lemma OnHorizontalEdge(s: Spot, y: int, x0: int, x1: int)
    requires s.y == y as real && x0 as real <= s.x <= x1 as real
    ensures OnSegment(s, Point(x0, y), Point(x1, y)) && OnSegment(s, Point(x1, y), Point(x0, y))
  {
    var d := (x1 - x0) as real;
    var t := if d == 0.0 then 0.0 else (s.x - x0 as real) / d;
    assert t * d == s.x - x0 as real;
    assert 0.0 <= t <= 1.0;
    assert Along(Point(x0, y), Point(x1, y), t) == s;
    assert (1.0 - t) * (-d) == -d + t * d;
    assert Along(Point(x1, y), Point(x0, y), 1.0 - t) == s;
  }

  ghost predicate OnBorder(s: Spot, r: Rect) {
    && InRect(s, r)
    && (s.x == r.x as real || s.x == (r.x + r.width) as real || s.y == r.y as real || s.y == (r.y + r.height) as real)
  }

  /** A segment that starts outside the rectangle and reaches it meets its border. */
  lemma EntersThroughBorder(a: Point, b: Point, r: Rect, t: real) returns (e: real)
    requires 0.0 <= t <= 1.0 && InRect(Along(a, b, t), r) && !PointInsideRect(a, r)
    ensures 0.0 <= e <= 1.0 && OnBorder(Along(a, b, e), r)
  {
    var ex := Entry(a.x, b.x, r.x, r.x + r.width, t);
    var ey := Entry(a.y, b.y, r.y, r.y + r.height, t);
    e := if ex <= ey then ey else ex;
    StaysInRange(a.x, b.x, r.x, r.x + r.width, ex, t, e);
    StaysInRange(a.y, b.y, r.y, r.y + r.height, ey, t, e);
  }

  lemma BorderMeansEdge(a: Point, b: Point, r: Rect, s: Spot)
    requires OnSegment(s, a, b) && OnBorder(s, r)
    ensures SegmentIntersectsRect(a, b, r)
  {
    var x1, y1 := r.x + r.width, r.y + r.height;
    if s.x == r.x as real {
      OnVerticalEdge(s, r.x, r.y, y1);
      SegmentsIntersectExact(a, b, Point(r.x, y1), Point(r.x, r.y));
    } else if s.x == x1 as real {
      OnVerticalEdge(s, x1, r.y, y1);
      SegmentsIntersectExact(a, b, Point(x1, r.y), Point(x1, y1));
    } else if s.y == r.y as real {
      OnHorizontalEdge(s, r.y, r.x, x1);
      SegmentsIntersectExact(a, b, Point(r.x, r.y), Point(x1, r.y));
    } else {
      OnHorizontalEdge(s, y1, r.x, x1);
      SegmentsIntersectExact(a, b, Point(x1, y1), Point(r.x, y1));
    }
  }

  /** An edge of the rectangle lies in the rectangle. */
  lemma EdgeMeets(a: Point, b: Point, r: Rect, p: Point, q: Point)
    requires PointInsideRect(p, r) && PointInsideRect(q, r) && SegmentsIntersect(a, b, p, q)
    ensures MeetsRect(a, b, r)
  {
    SegmentsIntersectExact(a, b, p, q);
    var s :| OnSegment(s, a, b) && OnSegment(s, p, q);
    var t: real :| 0.0 <= t <= 1.0 && Along(p, q, t) == s;
    LerpRange(p.x, q.x, t);
    LerpRange(p.y, q.y, t);
    assert InRect(s, r);
  }

  /** Main result: the test holds exactly when the closed segment meets the closed
      rectangle, also when both ends are outside. */
  lemma SegmentIntersectsRectExact(a: Point, b: Point, r: Rect)
    requires r.width >= 0 && r.height >= 0
    ensures SegmentIntersectsRect(a, b, r) <==> MeetsRect(a, b, r)
  {
    if SegmentIntersectsRect(a, b, r) {
      RectTestMeets(a, b, r);
    }
    if MeetsRect(a, b, r) && !PointInsideRect(a, r) {
      var s :| OnSegment(s, a, b) && InRect(s, r);
      var t: real :| 0.0 <= t <= 1.0 && Along(a, b, t) == s;
      var e := EntersThroughBorder(a, b, r, t);
      assert OnSegment(Along(a, b, e), a, b);
      BorderMeansEdge(a, b, r, Along(a, b, e));
    }
  }

  lemma RectTestMeets(a: Point, b: Point, r: Rect)
    requires r.width >= 0 && r.height >= 0 && SegmentIntersectsRect(a, b, r)
    ensures MeetsRect(a, b, r)
  {
    var topLeft, topRight := Point(r.x, r.y + r.height), Point(r.x + r.width, r.y + r.height);
    var bottomLeft, bottomRight := Point(r.x, r.y), Point(r.x + r.width, r.y);
    Ends(a, b);
    if PointInsideRect(a, r) {
      assert InRect(Spotted(a), r);
    } else if PointInsideRect(b, r) {
      assert InRect(Spotted(b), r);
    } else if SegmentsIntersect(a, b, bottomLeft, bottomRight) {
      EdgeMeets(a, b, r, bottomLeft, bottomRight);
    } else if SegmentsIntersect(a, b, bottomRight, topRight) {
      EdgeMeets(a, b, r, bottomRight, topRight);
    } else if SegmentsIntersect(a, b, topRight, topLeft) {
      EdgeMeets(a, b, r, topRight, topLeft);
    } else {
      EdgeMeets(a, b, r, topLeft, bottomLeft);
    }
  }
}
