/** Shared vocabulary: optional values, strict orders, and the stable sort that
    `Array.prototype.sort` performs for a given comparator. */
module Basics {
  datatype Option<+T> = None | Some(value: T)

  ghost predicate StrictTotalOrder<T(!new)>(less: (T, T) -> bool) {
    && (forall a :: !less(a, a))
    && (forall a, b, c :: less(a, b) && less(b, c) ==> less(a, c))
    && (forall a, b :: a == b || less(a, b) || less(b, a))
  }

  ghost predicate TotalPreorder<T(!new)>(le: (T, T) -> bool) {
    && (forall a, b :: le(a, b) || le(b, a))
    && (forall a, b, c :: le(a, b) && le(b, c) ==> le(a, c))
  }

  ghost predicate Ordered<T(!new)>(le: (T, T) -> bool, s: seq<T>) {
    forall i, j :: 0 <= i < j < |s| ==> le(s[i], s[j])
  }

  ghost predicate Distinct<T(!new)>(s: seq<T>) {
    forall i, j :: 0 <= i < j < |s| ==> s[i] != s[j]
  }

  function Max(a: int, b: int): int { if a < b then b else a }

  function Min(a: int, b: int): int { if a < b then a else b }

  function Abs(a: int): int { if a < 0 then -a else a }

  /** Stable sort: `le(a, b)` reads "a may stand before b". */
  function SortBy<T>(le: (T, T) -> bool, s: seq<T>): (r: seq<T>)
    ensures |r| == |s|
  {
    if s == [] then [] else Insert(le, s[0], SortBy(le, s[1..]))
  }

  function Insert<T>(le: (T, T) -> bool, x: T, s: seq<T>): (r: seq<T>)
    ensures |r| == |s| + 1
  {
    if s == [] then [x]
    else if le(x, s[0]) then [x] + s
    else [s[0]] + Insert(le, x, s[1..])
  }

  lemma {:induction false} InsertPermutes<T>(le: (T, T) -> bool, x: T, s: seq<T>)
    ensures multiset(Insert(le, x, s)) == multiset([x]) + multiset(s)
  {
    if s != [] {
      assert s == [s[0]] + s[1..];
      if !le(x, s[0]) {
        InsertPermutes(le, x, s[1..]);
      }
    }
  }

  lemma {:induction false} SortPermutes<T>(le: (T, T) -> bool, s: seq<T>)
    ensures multiset(SortBy(le, s)) == multiset(s)
  {
    if s != [] {
      assert s == [s[0]] + s[1..];
      SortPermutes(le, s[1..]);
      InsertPermutes(le, s[0], SortBy(le, s[1..]));
    }
  }

  lemma {:induction false} InsertOrdered<T(!new)>(le: (T, T) -> bool, x: T, s: seq<T>)
    requires TotalPreorder(le) && Ordered(le, s)
    ensures Ordered(le, Insert(le, x, s))
  {
    if s != [] {
      if le(x, s[0]) {
        forall j | 0 <= j < |s| ensures le(x, s[j]) {
          assert j == 0 || le(s[0], s[j]);
        }
      } else {
        var rest := Insert(le, x, s[1..]);
        InsertOrdered(le, x, s[1..]);
        InsertPermutes(le, x, s[1..]);
        forall j | 0 <= j < |rest| ensures le(s[0], rest[j]) {
          assert rest[j] in multiset(rest);
          assert rest[j] == x || rest[j] in s[1..];
        }
      }
    }
  }

  lemma {:induction false} SortOrdered<T(!new)>(le: (T, T) -> bool, s: seq<T>)
    requires TotalPreorder(le)
    ensures Ordered(le, SortBy(le, s))
  {
    if s != [] {
      SortOrdered(le, s[1..]);
      InsertOrdered(le, s[0], SortBy(le, s[1..]));
    }
  }

  /** a and b may stand in either order. */
  function TiedWith<T>(le: (T, T) -> bool, a: T): T -> bool {
    (b: T) => le(a, b) && le(b, a)
  }

  lemma FilterHead<T>(p: T -> bool, x: T, s: seq<T>)
    ensures Filter(p, [x] + s) == (if p(x) then [x] else []) + Filter(p, s)
  {
    FilterConcat(p, [x], s);
    assert [x][..0] == [];
  }

  /** Elements that are not tied change places unnoticed. */
  lemma TiedSwap<T(!new)>(le: (T, T) -> bool, x: T, y: T, s: seq<T>, a: T)
    requires TotalPreorder(le) && !le(x, y)
    ensures Filter(TiedWith(le, a), [y] + ([x] + s)) == Filter(TiedWith(le, a), [x] + ([y] + s))
  {
    FilterHead(TiedWith(le, a), y, [x] + s);
    FilterHead(TiedWith(le, a), x, s);
    FilterHead(TiedWith(le, a), x, [y] + s);
    FilterHead(TiedWith(le, a), y, s);
  }

  lemma {:induction false} InsertStable<T(!new)>(le: (T, T) -> bool, x: T, s: seq<T>, a: T)
    requires TotalPreorder(le)
    ensures Filter(TiedWith(le, a), Insert(le, x, s)) == Filter(TiedWith(le, a), [x] + s)
  {
    if s != [] && !le(x, s[0]) {
      InsertStable(le, x, s[1..], a);
      FilterHead(TiedWith(le, a), s[0], Insert(le, x, s[1..]));
      FilterHead(TiedWith(le, a), s[0], [x] + s[1..]);
      TiedSwap(le, x, s[0], s[1..], a);
      assert s == [s[0]] + s[1..];
    }
  }

  /** Elements that may stand in either order keep the order they had: the sort is stable. */
  lemma {:induction false} SortStable<T(!new)>(le: (T, T) -> bool, s: seq<T>, a: T)
    requires TotalPreorder(le)
    ensures Filter(TiedWith(le, a), SortBy(le, s)) == Filter(TiedWith(le, a), s)
  {
    if s != [] {
      assert s == [s[0]] + s[1..];
      SortStable(le, s[1..], a);
      InsertStable(le, s[0], SortBy(le, s[1..]), a);
      FilterConcat(TiedWith(le, a), [s[0]], SortBy(le, s[1..]));
      FilterConcat(TiedWith(le, a), [s[0]], s[1..]);
    }
  }

  /** The first element of a sorted list may stand before every other. */
  lemma SortedHead<T(!new)>(le: (T, T) -> bool, s: seq<T>, x: T)
    requires TotalPreorder(le) && s != []
    ensures SortBy(le, s)[0] in s
    ensures x in s ==> le(SortBy(le, s)[0], x)
  {
    var sorted := SortBy(le, s);
    SortPermutes(le, s);
    MultisetMembers(sorted, s);
    SortOrdered(le, s);
    assert sorted[0] in sorted;
    if x in s {
      var i :| 0 <= i < |sorted| && sorted[i] == x;
      assert le(sorted[0], sorted[0]);
    }
  }

  lemma MultisetMembers<T>(a: seq<T>, b: seq<T>)
    requires multiset(a) == multiset(b)
    ensures forall x :: x in a <==> x in b
  {
    forall x ensures x in a <==> x in b {
      assert x in a <==> x in multiset(a);
      assert x in b <==> x in multiset(b);
    }
  }

  lemma {:induction false} SubsetSize<T>(a: set<T>, b: set<T>)
    requires a <= b
    ensures |a| <= |b|
  {
    assert b == a + (b - a);
  }

  /** A sequence without repetitions is no longer than any set holding its elements. */
  lemma {:induction false} DistinctBound<T(!new)>(s: seq<T>, ids: set<T>)
    requires Distinct(s)
    requires forall x :: x in s ==> x in ids
    ensures |s| <= |ids|
  {
    if s != [] {
      var x := s[|s| - 1];
      forall y | y in s[..|s| - 1] ensures y in ids - {x} {
      }
      DistinctBound(s[..|s| - 1], ids - {x});
    }
  }

  /** Joins the pieces of a text, as `Array.prototype.join('')` does. */
  function Join<T>(pieces: seq<seq<T>>): seq<T> {
    if pieces == [] then [] else pieces[0] + Join(pieces[1..])
  }

  // ----- the order of ids: by code unit, first difference decides -----

  predicate StrLess(a: string, b: string) {
    if b == "" then false
    else if a == "" then true
    else a[0] < b[0] || (a[0] == b[0] && StrLess(a[1..], b[1..]))
  }

  lemma {:induction false} StrIrreflexive(a: string)
    ensures !StrLess(a, a)
  {
    if a != "" {
      StrIrreflexive(a[1..]);
    }
  }

  lemma {:induction false} StrTransitive(a: string, b: string, c: string)
    requires StrLess(a, b) && StrLess(b, c)
    ensures StrLess(a, c)
  {
    if a != "" && a[0] == b[0] && b[0] == c[0] {
      StrTransitive(a[1..], b[1..], c[1..]);
    }
  }

  lemma {:induction false} StrTotal(a: string, b: string)
    ensures a == b || StrLess(a, b) || StrLess(b, a)
  {
    if a != "" && b != "" && a[0] == b[0] {
      StrTotal(a[1..], b[1..]);
      assert a == [a[0]] + a[1..] && b == [b[0]] + b[1..];
    }
  }

  lemma StrAsymmetric(a: string, b: string)
    ensures !StrLess(a, b) || !StrLess(b, a)
  {
    if StrLess(a, b) && StrLess(b, a) {
      StrTransitive(a, b, a);
      StrIrreflexive(a);
    }
  }

  lemma NotLessTransitive(a: string, b: string, c: string)
    ensures !StrLess(b, a) && !StrLess(c, b) ==> !StrLess(c, a)
  {
    StrTotal(a, b);
    if StrLess(a, b) && StrLess(c, a) {
      StrTransitive(c, a, b);
    }
  }

  lemma DistinctMultiset<T(!new)>(a: seq<T>, b: seq<T>)
    requires Distinct(a) && multiset(a) == multiset(b)
    ensures Distinct(b)
  {
    forall i, j | 0 <= i < j < |b| ensures b[i] != b[j] {
      OnceEach(a, b[i]);
      assert b == b[..j] + [b[j]] + b[j + 1..];
      assert b[i] in b[..j];
      assert multiset(b)[b[i]] <= 1;
    }
  }

  lemma {:induction false} OnceEach<T(!new)>(a: seq<T>, x: T)
    requires Distinct(a)
    ensures multiset(a)[x] <= 1
  {
    if a != [] {
      assert a == [a[0]] + a[1..];
      OnceEach(a[1..], x);
      assert a[0] !in a[1..];
    }
  }

  // ----- selections -----

  function Filter<T>(p: T -> bool, s: seq<T>): seq<T> {
    if s == [] then []
    else Filter(p, s[..|s| - 1]) + if p(s[|s| - 1]) then [s[|s| - 1]] else []
  }

  lemma {:induction false} FilterCounts<T>(p: T -> bool, s: seq<T>, x: T)
    ensures multiset(Filter(p, s))[x] == if p(x) then multiset(s)[x] else 0
  {
    if s != [] {
      var n := |s| - 1;
      assert s == s[..n] + [s[n]];
      FilterCounts(p, s[..n], x);
    }
  }

  lemma {:induction false} FilterMembers<T>(p: T -> bool, s: seq<T>)
    ensures forall x :: x in Filter(p, s) ==> x in s && p(x)
  {
    if s != [] {
      FilterMembers(p, s[..|s| - 1]);
    }
  }

  lemma {:induction false} FilterConcat<T>(p: T -> bool, a: seq<T>, b: seq<T>)
    ensures Filter(p, a + b) == Filter(p, a) + Filter(p, b)
  {
    if b == [] {
      assert a + b == a;
    } else {
      FilterConcat(p, a, b[..|b| - 1]);
      assert (a + b)[..|a + b| - 1] == a + b[..|b| - 1];
    }
  }

  lemma {:induction false} FilterNone<T>(p: T -> bool, s: seq<T>)
    requires forall k :: 0 <= k < |s| ==> !p(s[k])
    ensures Filter(p, s) == []
  {
    if s != [] {
      FilterNone(p, s[..|s| - 1]);
    }
  }

  lemma {:induction false} FilterSame<T>(p: T -> bool, q: T -> bool, s: seq<T>)
    requires forall k :: 0 <= k < |s| ==> p(s[k]) == q(s[k])
    ensures Filter(p, s) == Filter(q, s)
  {
    if s != [] {
      FilterSame(p, q, s[..|s| - 1]);
    }
  }

  predicate Increasing(at: seq<nat>) {
    forall i, j :: 0 <= i < j < |at| ==> at[i] < at[j]
  }

  /** `at` lists, in order, the numbers below n that `ok` holds for. */
  ghost predicate Selects(at: seq<nat>, n: nat, ok: nat -> bool) {
    Increasing(at) && forall i: nat :: i in at <==> i < n && ok(i)
  }

  lemma SelectsNext(at: seq<nat>, n: nat, ok: nat -> bool)
    requires Selects(at, n, ok)
    ensures Selects(if ok(n) then at + [n] else at, n + 1, ok)
  {
    forall k | 0 <= k < |at| ensures at[k] < n {
      assert at[k] in at;
    }
  }

  /** The keys in order of first appearance: the insertion order of a Map. */
  function FirstSeen<T, K(==)>(key: T -> K, s: seq<T>): seq<K> {
    if s == [] then []
    else
      var before := FirstSeen(key, s[..|s| - 1]);
      if key(s[|s| - 1]) in before then before else before + [key(s[|s| - 1])]
  }

  lemma {:induction false} FirstSeenExact<T, K>(key: T -> K, s: seq<T>)
    ensures forall i, j :: 0 <= i < j < |FirstSeen(key, s)| ==> FirstSeen(key, s)[i] != FirstSeen(key, s)[j]
    ensures forall k :: k in FirstSeen(key, s) <==> exists i :: 0 <= i < |s| && key(s[i]) == k
  {
    if s != [] {
      var n := |s| - 1;
      FirstSeenExact(key, s[..n]);
      forall k ensures k in FirstSeen(key, s) <==> exists i :: 0 <= i < |s| && key(s[i]) == k {
        if k in FirstSeen(key, s[..n]) {
          var i :| 0 <= i < n && key(s[..n][i]) == k;
          assert key(s[i]) == k;
        }
        if i :| 0 <= i < |s| && key(s[i]) == k {
          if i < n {
            assert key(s[..n][i]) == k;
          }
        }
      }
    }
  }

  function WithKey<T, K(==)>(key: T -> K, k: K): T -> bool {
    (x: T) => key(x) == k
  }

  function Group<T, K(==)>(groups: map<K, seq<T>>, k: K): seq<T> {
    if k in groups then groups[k] else []
  }

  ghost predicate GroupIs<T, K>(key: T -> K, groups: map<K, seq<T>>, k: K, s: seq<T>) {
    Group(groups, k) == Filter(WithKey(key, k), s)
  }

  /** The groups of s by key as a Map collects them, and its keys in insertion order. */
  ghost predicate Grouped<T, K(!new)>(key: T -> K, groups: map<K, seq<T>>, keys: seq<K>, s: seq<T>) {
    && keys == FirstSeen(key, s)
    && (forall k :: k in groups <==> k in keys)
    && (forall k :: GroupIs(key, groups, k, s))
  }

  lemma FilterAppend<T>(p: T -> bool, s: seq<T>, x: T)
    ensures Filter(p, s + [x]) == Filter(p, s) + if p(x) then [x] else []
  {
    assert (s + [x])[..|s|] == s;
  }

  lemma FirstSeenAppend<T, K>(key: T -> K, s: seq<T>, x: T)
    ensures FirstSeen(key, s + [x]) ==
      if key(x) in FirstSeen(key, s) then FirstSeen(key, s) else FirstSeen(key, s) + [key(x)]
  {
    assert (s + [x])[..|s|] == s;
  }

  lemma GroupStep<T, K(!new)>(key: T -> K, groups: map<K, seq<T>>, keys: seq<K>, s: seq<T>, x: T)
    requires Grouped(key, groups, keys, s)
    ensures Grouped(key, groups[key(x) := Group(groups, key(x)) + [x]], if key(x) in keys then keys
      else keys + [key(x)], s + [x])
  {
    var all := groups[key(x) := Group(groups, key(x)) + [x]];
    FirstSeenAppend(key, s, x);
    forall k ensures GroupIs(key, all, k, s + [x]) {
      assert GroupIs(key, groups, k, s);
      FilterAppend(WithKey(key, k), s, x);
    }
  }

  method GroupBy<T, K(==, !new)>(key: T -> K, s: seq<T>) returns (groups: map<K, seq<T>>, keys: seq<K>)
    ensures Grouped(key, groups, keys, s)
  {
    groups, keys := map[], [];
    for i := 0 to |s|
      invariant Grouped(key, groups, keys, s[..i])
    {
      var k := key(s[i]);
      GroupStep(key, groups, keys, s[..i], s[i]);
      assert s[..i] + [s[i]] == s[..i + 1];
      groups := groups[k := Group(groups, k) + [s[i]]];
      keys := if k in keys then keys else keys + [k];
    }
    assert s[..|s|] == s;
  }

  // ----- decimal numerals -----

  function Digit(d: nat): char
    requires d < 10
  {
    "0123456789"[d]
  }

  function Decimal(n: nat): (s: string)
    ensures |s| >= 1
    ensures n >= 10 ==> |s| >= 2
  {
    if n < 10 then [Digit(n)] else Decimal(n / 10) + [Digit(n % 10)]
  }

  lemma {:induction false} DecimalInjective(m: nat, n: nat)
    requires Decimal(m) == Decimal(n)
    ensures m == n
  {
    var s, t := Decimal(m), Decimal(n);
    assert s[|s| - 1] == Digit(m % 10) && t[|t| - 1] == Digit(n % 10);
    assert m % 10 == n % 10;
    if m >= 10 && n >= 10 {
      assert s[..|s| - 1] == Decimal(m / 10) && t[..|t| - 1] == Decimal(n / 10);
      DecimalInjective(m / 10, n / 10);
    } else {
      assert m < 10 && n < 10;
    }
  }
}
