/** What resolving overlaps guarantees for a layout, and what takes distinct component ids. */
module OverlapTheorems {
  import opened Basics
  import opened Operations

  ghost predicate DistinctIds(ps: seq<Placement>) {
    forall i, j :: 0 <= i < j < |ps| ==> ps[i].componentId != ps[j].componentId
  }

  /** Inside the bounds and clear of the keep-outs. */
  predicate FitsAlone(o: Options, p: Placement) {
    && RectInsideRect(p.bbox, o.bounds)
    && forall k :: 0 <= k < |o.keepouts| ==> !RectsOverlap(p.bbox, o.keepouts[k], Spacing(o))
  }

  predicate Apart(o: Options, p: Placement, q: Placement) {
    !RectsOverlap(p.bbox, q.bbox, Spacing(o))
  }

  /** Every part that may move fits and keeps the spacing from every other part, locked or not. */
  ghost predicate Legal(o: Options, ps: seq<Placement>) {
    && (forall p :: p in ps && !IsLocked(o, p) ==> FitsAlone(o, p))
    && (forall p, q :: p in ps && q in ps && !IsLocked(o, p) && p.componentId != q.componentId ==> Apart(o, p, q))
  }

  // ----- one part after the other -----

  ghost predicate Kept(o: Options, p: Placement, next: Placement) {
    && next.componentId == p.componentId && next.width == p.width && next.height == p.height
    && next.locked == IsLocked(o, p) && IsLocked(o, next) == IsLocked(o, p)
    && (IsLocked(o, p) ==> next == p.(locked := true))
  }

  lemma {:induction false} SettledKeeps(o: Options, ordered: seq<Placement>)
    ensures forall i :: 0 <= i < |ordered| ==> Kept(o, ordered[i], Settled(o, ordered).occupied[i])
  {
    if ordered != [] {
      SettledKeeps(o, ordered[..|ordered| - 1]);
    }
  }

  /** Part i suits those settled before it. */
  ghost predicate WellSettled(o: Options, occupied: seq<Placement>, i: nat)
    requires i < |occupied|
  {
    IsLocked(o, occupied[i]) ||
      (FitsAlone(o, occupied[i]) && forall j :: 0 <= j < i ==> Apart(o, occupied[i], occupied[j]))
  }

  lemma FitsMeans(o: Options, p: Placement, occupied: seq<Placement>)
    ensures PlacementFits(o, p.bbox, occupied) <==> FitsAlone(o, p) && forall j :: 0 <= j < |occupied| ==>
      Apart(o, p, occupied[j])
  {
  }

  lemma SettleFits(o: Options, p: Placement, occupied: seq<Placement>, iterations: nat)
    requires !IsLocked(o, p)
    ensures var out := Settle(o, p, occupied, iterations); out.failed <==> !PlacementFits(o, out.next.bbox, occupied)
  {
    FindExact(Centers(o, p), Suits(o, p, occupied), Limit(o), iterations);
  }

  /** No search failed exactly when every part suits those settled before it. */
  lemma {:induction false} SettledWell(o: Options, ordered: seq<Placement>)
    ensures var s := Settled(o, ordered);
      !s.failed <==> forall i: nat :: i < |s.occupied| ==> WellSettled(o, s.occupied, i)
  {
    if ordered != [] {
      var n := |ordered| - 1;
      var before, all := Settled(o, ordered[..n]), Settled(o, ordered);
      SettledWell(o, ordered[..n]);
      SettledKeeps(o, ordered);
      LastSettled(o, ordered);
      forall i: nat | i < n ensures WellSettled(o, all.occupied, i) <==> WellSettled(o, before.occupied, i) {
      }
    }
  }

  lemma LastSettled(o: Options, ordered: seq<Placement>)
    requires ordered != []
    ensures var n, before, all := |ordered| - 1, Settled(o, ordered[..|ordered| - 1]), Settled(o, ordered);
      && all.occupied[..n] == before.occupied
      && (!all.failed <==> !before.failed && WellSettled(o, all.occupied, n))
  {
    var n, before, all := |ordered| - 1, Settled(o, ordered[..|ordered| - 1]), Settled(o, ordered);
    SettledKeeps(o, ordered);
    if !IsLocked(o, ordered[n]) {
      SettleFits(o, ordered[n], before.occupied, before.iterations);
      FitsMeans(o, all.occupied[n], before.occupied);
    }
  }

  ghost predicate LockedFirst(o: Options, ps: seq<Placement>) {
    forall i, j :: 0 <= i < j < |ps| && IsLocked(o, ps[j]) ==> IsLocked(o, ps[i])
  }

  lemma ApartSymmetric(o: Options, p: Placement, q: Placement)
    ensures Apart(o, p, q) <==> Apart(o, q, p)
  {
  }

  /** With locked parts first, suiting the earlier ones is suiting all. */
  lemma WellSettledIsLegal(o: Options, occupied: seq<Placement>)
    requires LockedFirst(o, occupied)
    ensures (forall i: nat :: i < |occupied| ==> WellSettled(o, occupied, i)) ==> Legal(o, occupied)
    ensures DistinctIds(occupied) && Legal(o, occupied) ==> forall i: nat :: i < |occupied| ==>
      WellSettled(o, occupied, i)
  {
    if forall i: nat :: i < |occupied| ==> WellSettled(o, occupied, i) {
      forall p | p in occupied && !IsLocked(o, p) ensures FitsAlone(o, p) {
        var i: nat :| i < |occupied| && occupied[i] == p;
        assert WellSettled(o, occupied, i);
      }
      forall p, q | p in occupied && q in occupied && !IsLocked(o, p) &&
        p.componentId != q.componentId ensures Apart(o, p, q) {
        var i: nat :| i < |occupied| && occupied[i] == p;
        var j: nat :| j < |occupied| && occupied[j] == q;
        assert WellSettled(o, occupied, i) && WellSettled(o, occupied, j);
        ApartSymmetric(o, p, q);
      }
    }
    if DistinctIds(occupied) && Legal(o, occupied) {
      forall i: nat | i < |occupied| ensures WellSettled(o, occupied, i) {
        forall j | 0 <= j < i && !IsLocked(o, occupied[i]) ensures Apart(o, occupied[i], occupied[j]) {
          assert occupied[i] in occupied && occupied[j] in occupied;
        }
        assert occupied[i] in occupied;
      }
    }
  }

  // ----- order and table -----

  lemma ResolveOrderTotal(o: Options)
    ensures TotalPreorder(ResolveOrder(o))
  {
    var le := ResolveOrder(o);
    forall a, b ensures le(a, b) || le(b, a) {
      StrAsymmetric(a.componentId, b.componentId);
    }
    forall a, b, c | le(a, b) && le(b, c) ensures le(a, c) {
      if IsLocked(o, a) == IsLocked(o, c) {
        NotLessTransitive(a.componentId, b.componentId, c.componentId);
      }
    }
  }

  lemma {:induction false} TableExact(occupied: seq<Placement>)
    requires DistinctIds(occupied)
    ensures forall i :: 0 <= i < |occupied| ==>
      occupied[i].componentId in Table(occupied) && Table(occupied)[occupied[i].componentId] == occupied[i]
  {
    if occupied != [] {
      TableExact(occupied[..|occupied| - 1]);
    }
  }

  function Ordering(o: Options, ps: seq<Placement>): seq<Placement> {
    SortBy(ResolveOrder(o), ps)
  }

  lemma OrderingSorted(o: Options, ps: seq<Placement>)
    ensures LockedFirst(o, Ordering(o, ps)) && multiset(Ordering(o, ps)) == multiset(ps)
    ensures forall p :: p in Ordering(o, ps) <==> p in ps
  {
    var le, ordered := ResolveOrder(o), Ordering(o, ps);
    SortPermutes(le, ps);
    MultisetMembers(ordered, ps);
    ResolveOrderTotal(o);
    SortOrdered(le, ps);
    forall i, j | 0 <= i < j < |ordered| && IsLocked(o, ordered[j]) ensures IsLocked(o, ordered[i]) {
      assert le(ordered[i], ordered[j]);
    }
  }

  lemma OrderingExact(o: Options, ps: seq<Placement>)
    requires DistinctIds(ps)
    ensures DistinctIds(Ordering(o, ps)) && LockedFirst(o, Ordering(o, ps))
    ensures forall p :: p in Ordering(o, ps) <==> p in ps
  {
    var ordered := Ordering(o, ps);
    OrderingSorted(o, ps);
    forall i, j | 0 <= i < j < |ordered| ensures ordered[i].componentId != ordered[j].componentId {
      DistinctPair(ps, ordered, i, j);
    }
  }

  lemma DistinctPair(ps: seq<Placement>, ordered: seq<Placement>, i: nat, j: nat)
    requires DistinctIds(ps) && multiset(ordered) == multiset(ps) && i < j < |ordered|
    ensures ordered[i].componentId != ordered[j].componentId
  {
    MultisetMembers(ordered, ps);
    assert ordered[i] in ps && ordered[j] in ps;
    OnceEach(ps, ordered[i]);
    assert ordered == ordered[..j] + [ordered[j]] + ordered[j + 1..];
    assert ordered[i] in ordered[..j];
    assert multiset(ordered)[ordered[i]] <= 1;
    assert ordered[i] != ordered[j];
  }

  lemma {:induction false} OnceEach(ps: seq<Placement>, p: Placement)
    requires DistinctIds(ps)
    ensures multiset(ps)[p] <= 1
  {
    if ps != [] {
      assert ps == [ps[0]] + ps[1..];
      OnceEach(ps[1..], p);
      assert ps[0] !in ps[1..];
    }
  }

  /** Entry i is the last with its id. */
  predicate LastWithId(ps: seq<Placement>, i: nat)
    requires i < |ps|
  {
    forall j :: i < j < |ps| ==> ps[j].componentId != ps[i].componentId
  }

  lemma {:induction false} LastIndex(ps: seq<Placement>, k: nat) returns (i: nat)
    requires k < |ps|
    ensures i < |ps| && ps[i].componentId == ps[k].componentId && LastWithId(ps, i)
    decreases |ps| - k
  {
    i := k;
    if !LastWithId(ps, k) {
      var j: nat :| k < j < |ps| && ps[j].componentId == ps[k].componentId;
      i := LastIndex(ps, j);
    }
  }

  lemma {:induction false} TableLast(occupied: seq<Placement>, i: nat)
    requires i < |occupied| && LastWithId(occupied, i)
    ensures occupied[i].componentId in Table(occupied) && Table(occupied)[occupied[i].componentId] == occupied[i]
  {
    if i < |occupied| - 1 {
      TableLast(occupied[..|occupied| - 1], i);
    }
  }

  /** Whatever the ids, a part receives what the last part with its id was settled as. */
  lemma ResultFrom(o: Options, ps: seq<Placement>, k: nat) returns (i: nat)
    requires k < |ps|
    ensures i < |Ordering(o, ps)| && Ordering(o, ps)[i].componentId == ps[k].componentId
    ensures ps[k].componentId in Table(Settled(o, Ordering(o, ps)).occupied)
    ensures Resolved(o, ps)[k] == Settled(o, Ordering(o, ps)).occupied[i]
  {
    var ordered := Ordering(o, ps);
    OrderingSorted(o, ps);
    assert ps[k] in ordered;
    var j: nat :| j < |ordered| && ordered[j] == ps[k];
    i := LastIndex(ordered, j);
    SettledKeeps(o, ordered);
    assert LastWithId(Settled(o, ordered).occupied, i);
    TableLast(Settled(o, ordered).occupied, i);
  }

  /** The result lists, for each part, what it was settled as. */
  lemma ResultOf(o: Options, ps: seq<Placement>, k: nat) returns (i: nat)
    requires DistinctIds(ps) && k < |ps|
    ensures i < |ps| && i < |Ordering(o, ps)| && Ordering(o, ps)[i] == ps[k]
    ensures Resolved(o, ps)[k] == Settled(o, Ordering(o, ps)).occupied[i]
  {
    var ordered := Ordering(o, ps);
    OrderingExact(o, ps);
    assert ps[k] in ordered;
    i :| 0 <= i < |ordered| && ordered[i] == ps[k];
    SettledKeeps(o, ordered);
    SettledIds(o, ordered);
    TableExact(Settled(o, ordered).occupied);
  }

  lemma SettledIds(o: Options, ordered: seq<Placement>)
    requires DistinctIds(ordered)
    ensures DistinctIds(Settled(o, ordered).occupied)
    ensures LockedFirst(o, ordered) ==> LockedFirst(o, Settled(o, ordered).occupied)
  {
    SettledKeeps(o, ordered);
  }

  lemma ResultMembers(o: Options, ps: seq<Placement>)
    requires DistinctIds(ps)
    ensures forall p :: p in Resolved(o, ps) <==> p in Settled(o, Ordering(o, ps)).occupied
  {
    var ordered, occupied, result := Ordering(o, ps), Settled(o, Ordering(o, ps)).occupied, Resolved(o, ps);
    OrderingExact(o, ps);
    forall p | p in result ensures p in occupied {
      var k: nat :| k < |result| && result[k] == p;
      var i := ResultOf(o, ps, k);
    }
    forall p | p in occupied ensures p in result {
      var i: nat :| i < |occupied| && occupied[i] == p;
      assert ordered[i] in ps;
      var k: nat :| k < |ps| && ps[k] == ordered[i];
      var j := ResultOf(o, ps, k);
      assert j == i;
      assert result[k] == p;
    }
  }

  // ----- the theorems -----

  /** The result keeps every id and size in its place, and a locked part entirely. */
  lemma ResultKeeps(o: Options, ps: seq<Placement>)
    requires DistinctIds(ps)
    ensures forall k :: 0 <= k < |ps| ==> Kept(o, ps[k], Resolved(o, ps)[k])
    ensures DistinctIds(Resolved(o, ps))
  {
    SettledKeeps(o, Ordering(o, ps));
    forall k | 0 <= k < |ps| ensures Kept(o, ps[k], Resolved(o, ps)[k]) {
      var i := ResultOf(o, ps, k);
    }
  }

  /** The result is legal exactly when every search found a place. */
  lemma ResultLegalIff(o: Options, ps: seq<Placement>)
    requires DistinctIds(ps)
    ensures Legal(o, Resolved(o, ps)) <==> !SearchFailed(o, ps)
  {
    var ordered := Ordering(o, ps);
    OrderingExact(o, ps);
    SettledIds(o, ordered);
    SettledWell(o, ordered);
    WellSettledIsLegal(o, Settled(o, ordered).occupied);
    ResultMembers(o, ps);
  }

  lemma {:induction false} LegalSettled(o: Options, ordered: seq<Placement>)
    requires DistinctIds(ordered) && Legal(o, ordered)
    ensures var s := Settled(o, ordered);
      !s.failed && forall i :: 0 <= i < |ordered| ==> s.occupied[i] == ordered[i].(locked := IsLocked(o, ordered[i]))
  {
    if ordered != [] {
      var n := |ordered| - 1;
      var before := Settled(o, ordered[..n]);
      LegalSettled(o, ordered[..n]);
      if !IsLocked(o, ordered[n]) {
        forall j | 0 <= j < n ensures Apart(o, ordered[n], before.occupied[j]) {
          assert ordered[n] in ordered && ordered[j] in ordered;
          assert Apart(o, ordered[n], ordered[j]);
        }
        assert ordered[n] in ordered;
        FitsMeans(o, ordered[n], before.occupied);
      }
    }
  }

  /** A legal layout is returned with every part where it is. */
  lemma LegalUnmoved(o: Options, ps: seq<Placement>)
    requires DistinctIds(ps) && Legal(o, ps)
    ensures !SearchFailed(o, ps)
    ensures forall k :: 0 <= k < |ps| ==> Resolved(o, ps)[k] == ps[k].(locked := IsLocked(o, ps[k]))
  {
    OrderingExact(o, ps);
    LegalSettled(o, Ordering(o, ps));
    forall k | 0 <= k < |ps| ensures Resolved(o, ps)[k] == ps[k].(locked := IsLocked(o, ps[k])) {
      var i := ResultOf(o, ps, k);
    }
  }

  /** Resolving a successful result again changes nothing. */
  lemma ResolvedIsFixed(o: Options, ps: seq<Placement>)
    requires DistinctIds(ps) && !SearchFailed(o, ps)
    ensures Resolved(o, Resolved(o, ps)) == Resolved(o, ps)
  {
    ResultKeeps(o, ps);
    ResultLegalIff(o, ps);
    LegalUnmoved(o, Resolved(o, ps));
  }

  // ----- repeated ids -----

  /** Same size and same lock; locked ones in the same place. */
  predicate Interchangeable(o: Options, p: Placement, q: Placement) {
    && p.width == q.width && p.height == q.height && IsLocked(o, p) == IsLocked(o, q)
    && (IsLocked(o, p) ==> p.(locked := true) == q.(locked := true))
  }

  /** For any ids: sizes and locks stay exactly when parts that share an id cannot be told
      apart by them. All parts of one id receive the same placement. */
  lemma ResultKeepsIff(o: Options, ps: seq<Placement>)
    ensures (forall k :: 0 <= k < |ps| ==> Kept(o, ps[k], Resolved(o, ps)[k])) <==>
      (forall p, q :: p in ps && q in ps && p.componentId == q.componentId ==> Interchangeable(o, p, q))
  {
    var ordered, result := Ordering(o, ps), Resolved(o, ps);
    OrderingSorted(o, ps);
    SettledKeeps(o, ordered);
    if forall k :: 0 <= k < |ps| ==> Kept(o, ps[k], result[k]) {
      forall p, q | p in ps && q in ps && p.componentId == q.componentId ensures Interchangeable(o, p, q) {
        var i: nat :| i < |ps| && ps[i] == p;
        var j: nat :| j < |ps| && ps[j] == q;
        SameResult(o, ps, i, j);
      }
    }
    if forall p, q :: p in ps && q in ps && p.componentId == q.componentId ==> Interchangeable(o, p, q) {
      forall k | 0 <= k < |ps| ensures Kept(o, ps[k], result[k]) {
        var i := ResultFrom(o, ps, k);
        assert ordered[i] in ps && ps[k] in ps;
        assert Interchangeable(o, ps[k], ordered[i]);
      }
    }
  }

  lemma SameResult(o: Options, ps: seq<Placement>, i: nat, j: nat)
    requires i < |ps| && j < |ps| && ps[i].componentId == ps[j].componentId
    ensures Resolved(o, ps)[i] == Resolved(o, ps)[j]
  {
    var k := ResultFrom(o, ps, i);
  }

  /** For any ids: if every search found a place, the result is legal. */
  lemma FoundIsLegal(o: Options, ps: seq<Placement>)
    requires !SearchFailed(o, ps)
    ensures Legal(o, Resolved(o, ps))
  {
    var ordered, result := Ordering(o, ps), Resolved(o, ps);
    var occupied := Settled(o, ordered).occupied;
    OrderingSorted(o, ps);
    SettledWell(o, ordered);
    SettledKeeps(o, ordered);
    assert LockedFirst(o, occupied);
    WellSettledIsLegal(o, occupied);
    forall p | p in result ensures p in occupied {
      var k: nat :| k < |result| && result[k] == p;
      var i := ResultFrom(o, ps, k);
    }
  }
}
