/** Texts as the bridge sees them: sequences of UTF-16 code units, cut into
    slices and joined again. */
module Text {
  import opened Basics

  newtype CodeUnit = x: int | 0 <= x < 0x10000

  type Str = seq<CodeUnit>

  function CeilDiv(a: nat, b: nat): nat
    requires b > 0
  {
    (a + b - 1) / b
  }

  /** `s.slice(i * size, (i + 1) * size)`: bounds beyond the end are clamped. */
  function Slice(s: Str, size: nat, i: nat): Str {
    s[Min(i * size, |s|)..Min((i + 1) * size, |s|)]
  }

  function Slices(s: Str, size: nat, n: nat): (r: seq<Str>)
    ensures |r| == n && forall i :: 0 <= i < n ==> r[i] == Slice(s, size, i)
  {
    seq(n, i requires 0 <= i < n => Slice(s, size, i))
  }

  lemma {:induction false} JoinAppend<T>(pieces: seq<seq<T>>, last: seq<T>)
    ensures Join(pieces + [last]) == Join(pieces) + last
  {
    if pieces != [] {
      assert (pieces + [last])[1..] == pieces[1..] + [last];
      JoinAppend(pieces[1..], last);
    }
  }

  lemma SliceNext(s: Str, size: nat, k: nat)
    ensures Join(Slices(s, size, k + 1)) == Join(Slices(s, size, k)) + Slice(s, size, k)
  {
    assert Slices(s, size, k + 1) == Slices(s, size, k) + [Slice(s, size, k)];
    JoinAppend(Slices(s, size, k), Slice(s, size, k));
  }

  lemma PrefixNext(s: Str, size: nat, k: nat)
    ensures s[..Min((k + 1) * size, |s|)] == s[..Min(k * size, |s|)] + Slice(s, size, k)
  {
    NextMultiple(k, size);
    CutAgain(s, k * size, (k + 1) * size);
  }

  lemma {:induction false} JoinSlices(s: Str, size: nat, n: nat)
    ensures Join(Slices(s, size, n)) == s[..Min(n * size, |s|)]
  {
    if n == 0 {
      assert 0 * size == 0 && Slices(s, size, 0) == [];
    } else {
      var k := n - 1;
      JoinSlices(s, size, k);
      SliceNext(s, size, k);
      PrefixNext(s, size, k);
      assert k + 1 == n;
    }
  }

  lemma NextMultiple(n: nat, size: nat)
    ensures n * size <= (n + 1) * size
  {
  }

  lemma CutAgain<T>(s: seq<T>, from: nat, to: nat)
    requires from <= to
    ensures s[..Min(to, |s|)] == s[..Min(from, |s|)] + s[Min(from, |s|)..Min(to, |s|)]
  {
  }

  lemma DivLess(n: nat, size: nat, q: nat)
    requires size > 0 && n < q * size
    ensures n / size < q
  {
  }

  lemma CeilDivCovers(a: nat, b: nat)
    requires b > 0
    ensures CeilDiv(a, b) * b >= a
    ensures a > 0 ==> CeilDiv(a, b) >= 1
  {
    var n := a + b - 1;
    assert n == (n / b) * b + n % b;
    assert n / b == 0 ==> n == n % b;
  }

  /** Enough slices rebuild the text. */
  lemma SlicesRebuild(s: Str, size: nat, n: nat)
    requires size > 0 && n >= CeilDiv(|s|, size)
    ensures Join(Slices(s, size, n)) == s
  {
    assert n * size >= |s| by {
      CeilDivCovers(|s|, size);
      assert n * size >= CeilDiv(|s|, size) * size;
    }
    JoinSlices(s, size, n);
  }

  // ----- length in UTF-8 -----

  predicate HighSurrogate(c: CodeUnit) { 0xD800 <= c < 0xDC00 }

  predicate LowSurrogate(c: CodeUnit) { 0xDC00 <= c < 0xE000 }

  /** Bytes of the UTF-8 encoding; an unpaired surrogate becomes U+FFFD. */
  function Utf8Length(s: Str): nat {
    if s == [] then 0
    else if |s| >= 2 && HighSurrogate(s[0]) && LowSurrogate(s[1]) then 4 + Utf8Length(s[2..])
    else (if s[0] < 0x80 then 1 else if s[0] < 0x800 then 2 else 3) + Utf8Length(s[1..])
  }

  lemma {:induction false} Utf8LengthBounds(s: Str)
    ensures |s| <= Utf8Length(s) <= 3 * |s|
  {
    if s == [] {
    } else if |s| >= 2 && HighSurrogate(s[0]) && LowSurrogate(s[1]) {
      Utf8LengthBounds(s[2..]);
    } else {
      Utf8LengthBounds(s[1..]);
    }
  }

  // ----- amounts stored in slots -----

  /** Total length of the pieces whose index is in `filled`, among the first n. */
  ghost function Stored(pieces: seq<Str>, filled: set<nat>, n: nat): nat
    requires n <= |pieces|
  {
    if n == 0 then 0 else Stored(pieces, filled, n - 1) + if n - 1 in filled then |pieces[n - 1]| else 0
  }

  lemma {:induction false} StoredAtMostJoin(pieces: seq<Str>, filled: set<nat>, n: nat)
    requires n <= |pieces|
    ensures Stored(pieces, filled, n) <= |Join(pieces[..n])|
  {
    if n > 0 {
      assert pieces[..n] == pieces[..n - 1] + [pieces[n - 1]];
      JoinAppend(pieces[..n - 1], pieces[n - 1]);
      StoredAtMostJoin(pieces, filled, n - 1);
    }
  }

  lemma {:induction false} StoredAfterFill(pieces: seq<Str>, filled: set<nat>, k: nat, n: nat)
    requires n <= |pieces| && k !in filled
    ensures Stored(pieces, filled + {k}, n) == Stored(pieces, filled, n) + if k < n then |pieces[k]| else 0
  {
    if n > 0 {
      StoredAfterFill(pieces, filled, k, n - 1);
    }
  }

  // ----- pieces that may still be missing -----

  function Blank(total: nat): (r: seq<Option<Str>>)
    ensures |r| == total && forall i :: 0 <= i < total ==> r[i] == None
  {
    seq(total, _ => None)
  }

  /** Joining treats a missing piece as the empty text. */
  function JoinChunks(chunks: seq<Option<Str>>): Str {
    if chunks == [] then []
    else JoinChunks(chunks[..|chunks| - 1]) + if chunks[|chunks| - 1].Some? then chunks[|chunks| - 1].value else []
  }

  function PieceLength(p: Option<Str>): nat {
    if p.Some? then |p.value| else 0
  }

  function FilledCount(chunks: seq<Option<Str>>): nat {
    if chunks == [] then 0 else FilledCount(chunks[..|chunks| - 1]) + if chunks[|chunks| - 1].Some? then 1 else 0
  }

  function StoredLength(chunks: seq<Option<Str>>): nat {
    if chunks == [] then 0 else StoredLength(chunks[..|chunks| - 1]) + PieceLength(chunks[|chunks| - 1])
  }

  lemma {:induction false} CountsAfterStore(chunks: seq<Option<Str>>, i: nat, piece: Str)
    requires i < |chunks|
    ensures FilledCount(chunks[i := Some(piece)]) == FilledCount(chunks) + if chunks[i].None? then 1 else 0
    ensures StoredLength(chunks[i := Some(piece)]) == StoredLength(chunks) + |piece| - PieceLength(chunks[i])
  {
    var n, next := |chunks| - 1, chunks[i := Some(piece)];
    if i == n {
      assert next[..n] == chunks[..n];
    } else {
      assert next[..n] == chunks[..n][i := Some(piece)];
      CountsAfterStore(chunks[..n], i, piece);
    }
  }

  lemma {:induction false} BlankCounts(n: nat)
    ensures FilledCount(Blank(n)) == 0 && StoredLength(Blank(n)) == 0
  {
    if n > 0 {
      assert Blank(n)[..n - 1] == Blank(n - 1);
      BlankCounts(n - 1);
    }
  }

  lemma {:induction false} FullMeansAllFilled(chunks: seq<Option<Str>>)
    ensures FilledCount(chunks) <= |chunks|
    ensures FilledCount(chunks) == |chunks| ==> forall i :: 0 <= i < |chunks| ==> chunks[i].Some?
  {
    if chunks != [] {
      var n := |chunks| - 1;
      FullMeansAllFilled(chunks[..n]);
      assert forall i :: 0 <= i < n ==> chunks[i] == chunks[..n][i];
    }
  }
}
