/** The bytes of a frame on the wire against the server's limit per frame: which
    payloads the sender's estimate of chunk sizes really keeps under it. */
module Framing {
  import opened Basics
  import opened Text
  import opened Chunking

  const QUOTE: CodeUnit := 0x22
  const BACKSLASH: CodeUnit := 0x5C

  // ----- the text JSON.stringify makes -----

  function Ascii(s: string): (r: Str)
    ensures |r| == |s|
    ensures forall i :: 0 <= i < |r| ==> r[i] < 0x80
  {
    seq(|s|, i requires 0 <= i < |s| => if s[i] as int < 0x80 then s[i] as int as CodeUnit else 0x3F)
  }

  function HexDigit(n: int): CodeUnit
    requires 0 <= n < 16
  {
    if n < 10 then (0x30 + n) as CodeUnit else (0x57 + n) as CodeUnit
  }

  function UnicodeEscape(c: CodeUnit): Str {
    var n := c as int;
    [BACKSLASH, 0x75, HexDigit(n / 4096), HexDigit(n / 256 % 16), HexDigit(n / 16 % 16), HexDigit(n % 16)]
  }

  predicate Surrogate(c: CodeUnit) {
    HighSurrogate(c) || LowSurrogate(c)
  }

  /** A code unit that is not half of a pair, inside a JSON string. */
  function EscapedUnit(c: CodeUnit): Str {
    if c == QUOTE || c == BACKSLASH then [BACKSLASH, c]
    else if c == 8 then [BACKSLASH, 0x62]
    else if c == 9 then [BACKSLASH, 0x74]
    else if c == 10 then [BACKSLASH, 0x6E]
    else if c == 12 then [BACKSLASH, 0x66]
    else if c == 13 then [BACKSLASH, 0x72]
    else if c < 0x20 || Surrogate(c) then UnicodeEscape(c)
    else [c]
  }

  predicate StartsWithPair(s: Str) {
    |s| >= 2 && HighSurrogate(s[0]) && LowSurrogate(s[1])
  }

  function Escaped(s: Str): Str {
    if s == [] then []
    else if StartsWithPair(s) then s[..2] + Escaped(s[2..])
    else EscapedUnit(s[0]) + Escaped(s[1..])
  }

  function ChunkId(now: nat, counter: nat): string {
    "chk_" + Decimal(now) + "_" + Decimal(counter)
  }

  function EnvelopeHead(id: string, index: nat, total: nat): string {
    "{\"type\":\"chunk\",\"id\":\"" + id + "\",\"seq\":" + Decimal(index) + ",\"total\":" + Decimal(total) +
      ",\"data\":\""
  }

  /** What is handed to the socket. Ids are those of `ChunkId`, which need no escapes. */
  function FrameText(f: Frame): Str {
    match f
    case Plain(text) => text
    case Chunk(id, index, total, data) => Ascii(EnvelopeHead(id, index, total)) + (Escaped(data) + Ascii("\"}"))
  }

  function FrameBytes(f: Frame): nat {
    Utf8Length(FrameText(f))
  }

  /** The server closes the connection on a frame with more bytes than the limit. */
  predicate PassesGate(f: Frame, limit: nat) {
    FrameBytes(f) <= limit
  }

  // ----- lengths of concatenations -----

  lemma {:induction false} Utf8Append(a: Str, b: Str)
    requires b == [] || !LowSurrogate(b[0])
    ensures Utf8Length(a + b) == Utf8Length(a) + Utf8Length(b)
  {
    if a == [] {
      assert a + b == b;
    } else if StartsWithPair(a) {
      assert (a + b)[2..] == a[2..] + b;
      Utf8Append(a[2..], b);
    } else {
      assert (a + b)[1..] == a[1..] + b;
      Utf8Append(a[1..], b);
    }
  }

  lemma {:induction false} AsciiBytes(s: Str)
    requires forall i :: 0 <= i < |s| ==> s[i] < 0x80
    ensures Utf8Length(s) == |s|
  {
    if s != [] {
      AsciiBytes(s[1..]);
    }
  }

  lemma {:induction false} EscapedStart(s: Str)
    ensures Escaped(s) == [] || !LowSurrogate(Escaped(s)[0])
  {
  }

  function UnitBytes(c: CodeUnit): nat {
    if Surrogate(c) || (c < 0x20 && c !in {8, 9, 10, 12, 13}) then 6
    else if c == QUOTE || c == BACKSLASH || c < 0x20 || 0x80 <= c < 0x800 then 2
    else if c < 0x80 then 1
    else 3
  }

  lemma UnitBytesExact(c: CodeUnit)
    ensures Utf8Length(EscapedUnit(c)) == UnitBytes(c)
  {
    var u := EscapedUnit(c);
    if |u| > 1 {
      AsciiBytes(u);
    } else {
      assert u[1..] == [];
    }
  }

  /** The bytes of an escaped text, from its first unit or pair on. */
  lemma EscapedStep(s: Str)
    requires s != []
    ensures Utf8Length(Escaped(s)) ==
      if StartsWithPair(s) then 4 + Utf8Length(Escaped(s[2..])) else UnitBytes(s[0]) + Utf8Length(Escaped(s[1..]))
  {
    if StartsWithPair(s) {
      EscapedStart(s[2..]);
      Utf8Append(s[..2], Escaped(s[2..]));
      assert Utf8Length(s[..2]) == 4 by {
        assert s[..2][2..] == [];
      }
    } else {
      EscapedStart(s[1..]);
      Utf8Append(EscapedUnit(s[0]), Escaped(s[1..]));
      UnitBytesExact(s[0]);
    }
  }

  function EnvelopeBytes(id: string, index: nat, total: nat): nat {
    |EnvelopeHead(id, index, total)| + 2
  }

  lemma ChunkFrameBytes(id: string, index: nat, total: nat, data: Str)
    ensures FrameBytes(Chunk(id, index, total, data)) == EnvelopeBytes(id, index, total) + Utf8Length(Escaped(data))
  {
    var head, tail := Ascii(EnvelopeHead(id, index, total)), Ascii("\"}");
    EscapedStart(data);
    Utf8Append(Escaped(data), tail);
    Utf8Append(head, Escaped(data) + tail);
    AsciiBytes(head);
    AsciiBytes(tail);
  }

  /** Chunk numbers up to 99 take at most four digits together, exactly four from 10 on. */
  lemma EnvelopeSize(id: string, index: nat, total: nat)
    requires index < 100 && total < 100
    ensures EnvelopeBytes(id, index, total) <= 54 + |id|
    ensures index >= 10 && total >= 10 ==> EnvelopeBytes(id, index, total) == 54 + |id|
  {
    TwoDigits(index);
    TwoDigits(total);
  }

  lemma TwoDigits(n: nat)
    requires n < 100
    ensures |Decimal(n)| == if n < 10 then 1 else 2
  {
  }

  // ----- payloads -----

  /** Surrogates come in pairs only. */
  predicate WellFormed(s: Str) {
    && (forall i :: 0 <= i < |s| && HighSurrogate(s[i]) ==> i + 1 < |s| && LowSurrogate(s[i + 1]))
    && (forall i :: 0 <= i < |s| && LowSurrogate(s[i]) ==> i > 0 && HighSurrogate(s[i - 1]))
  }

  /** Everything JSON.stringify returns has this form: it escapes control
      characters and unpaired surrogates. */
  predicate JsonText(s: Str) {
    WellFormed(s) && forall i :: 0 <= i < |s| ==> s[i] >= 0x20
  }

  /** A JSON string literal without escapes: one of the texts it returns. */
  predicate JsonString(s: Str) {
    && |s| >= 2 && s[0] == QUOTE && s[|s| - 1] == QUOTE && JsonText(s)
    && forall i :: 0 < i < |s| - 1 ==> s[i] != QUOTE && s[i] != BACKSLASH
  }

  /** A stretch of a JSON text: only its ends can be halves of a cut pair. */
  predicate Stretch(s: Str) {
    && (forall i :: 0 <= i < |s| ==> s[i] >= 0x20)
    && (forall i :: 0 <= i < |s| - 1 && HighSurrogate(s[i]) ==> LowSurrogate(s[i + 1]))
    && (forall i :: 0 < i < |s| && LowSurrogate(s[i]) ==> HighSurrogate(s[i - 1]))
  }

  function AfterFirst(s: Str): Str
    requires s != []
  {
    if StartsWithPair(s) then s[2..] else s[1..]
  }

  lemma StretchRest(s: Str)
    requires Stretch(s) && s != []
    ensures Stretch(AfterFirst(s)) && (AfterFirst(s) == [] || !LowSurrogate(AfterFirst(s)[0]))
  {
    var n := |s| - |AfterFirst(s)|;
    assert forall i :: 0 <= i < |s| - n ==> AfterFirst(s)[i] == s[n + i];
  }

  function CutBytes(c: CodeUnit): nat {
    if Surrogate(c) then 3 else 0
  }

  lemma FirstBytes(s: Str)
    requires Stretch(s) && s != []
    ensures Utf8Length(Escaped(s)) <=
      3 * (|s| - |AfterFirst(s)|) + (if StartsWithPair(s) then 0 else CutBytes(s[0])) +
        Utf8Length(Escaped(AfterFirst(s)))
  {
    EscapedStep(s);
  }

  function CutStart(s: Str): nat {
    if s != [] && LowSurrogate(s[0]) then 3 else 0
  }

  function CutEnd(s: Str): nat {
    if s != [] && HighSurrogate(s[|s| - 1]) then 3 else 0
  }

  /** Three bytes a unit, and three more for each cut end. */
  lemma {:induction false} StretchBytes(s: Str)
    requires Stretch(s)
    ensures Utf8Length(Escaped(s)) <= 3 * |s| + CutStart(s) + CutEnd(s)
  {
    if s != [] {
      FirstBytes(s);
      StretchRest(s);
      StretchBytes(AfterFirst(s));
      CutsAdd(s);
    }
  }

  lemma CutsAdd(s: Str)
    requires Stretch(s) && s != []
    ensures (if StartsWithPair(s) then 0 else CutBytes(s[0])) + CutEnd(AfterFirst(s)) <= CutStart(s) + CutEnd(s)
  {
    var n := |s| - |AfterFirst(s)|;
    assert AfterFirst(s) != [] ==> AfterFirst(s)[|s| - n - 1] == s[|s| - 1];
  }

  lemma PartIsStretch(payload: Str, from: nat, to: nat)
    requires JsonText(payload) && from <= to <= |payload|
    ensures Stretch(payload[from..to])
  {
    var s := payload[from..to];
    forall i | 0 < i < |s| && LowSurrogate(s[i]) ensures HighSurrogate(s[i - 1]) {
      assert s[i] == payload[from + i] && s[i - 1] == payload[from + i - 1];
    }
    forall i | 0 <= i < |s| - 1 && HighSurrogate(s[i]) ensures LowSurrogate(s[i + 1]) {
      assert s[i] == payload[from + i] && s[i + 1] == payload[from + i + 1];
    }
  }

  // ----- chunk frames -----

  function ChunkFrame(payload: Str, limit: nat, id: string, k: nat): Frame {
    Chunk(id, k, ChunkCount(|payload|, limit), Slice(payload, ChunkSize(limit), k))
  }

  /** Sent in chunks, and within what the server will reassemble. */
  predicate Chunked(payload: Str, limit: nat) {
    NeedsChunks(true, |payload|, limit) && |payload| <= limit * AGGREGATE_MULTIPLIER
  }

  ghost predicate AllPass(payload: Str, limit: nat, id: string) {
    forall k: nat :: k < ChunkCount(|payload|, limit) ==> PassesGate(ChunkFrame(payload, limit, id, k), limit)
  }

  /** The largest chunk frame: a slice of three-byte units between two cut pairs,
      with two digits for its number and two for the total. */
  function LargestFrame(limit: nat, id: string): nat {
    3 * ChunkSize(limit) + 6 + 54 + |id|
  }

  lemma SliceBytes(payload: Str, size: nat, k: nat)
    requires JsonText(payload)
    ensures Utf8Length(Escaped(Slice(payload, size, k))) <= 3 * size + 6
  {
    SliceLength(payload, size, k);
    PartIsStretch(payload, Min(k * size, |payload|), Min((k + 1) * size, |payload|));
    StretchBytes(Slice(payload, size, k));
  }

  lemma NoLargerFrame(payload: Str, limit: nat, id: string, k: nat)
    requires JsonText(payload) && Chunked(payload, limit) && k < ChunkCount(|payload|, limit)
    ensures FrameBytes(ChunkFrame(payload, limit, id, k)) <= LargestFrame(limit, id)
  {
    ChunkCountBound(|payload|, limit);
    EnvelopeSize(id, k, ChunkCount(|payload|, limit));
    ChunkFrameBytes(id, k, ChunkCount(|payload|, limit), Slice(payload, ChunkSize(limit), k));
    SliceBytes(payload, ChunkSize(limit), k);
  }

  // ----- the worst payloads -----

  const WIDE: CodeUnit := 0x4E2D
  const HIGH: CodeUnit := 0xD83D
  const LOW: CodeUnit := 0xDE00

  /** A string literal of three-byte units, with pairs across two slice borders. */
  function WorstUnit(i: nat, n: nat, size: nat): CodeUnit {
    if i == 0 || i == n - 1 then QUOTE
    else if i == 10 * size - 1 || i == 11 * size - 1 then HIGH
    else if i == 10 * size || i == 11 * size then LOW
    else WIDE
  }

  function Worst(n: nat, size: nat): (r: Str)
    ensures |r| == n && forall i :: 0 <= i < n ==> r[i] == WorstUnit(i, n, size)
  {
    seq(n, i requires 0 <= i < n => WorstUnit(i, n, size))
  }

  lemma WorstIsJson(n: nat, size: nat)
    requires size >= 3 && 2 <= n && (n <= size || n == 12 * size)
    ensures JsonString(Worst(n, size))
  {
  }

  lemma {:induction false} WideRun(s: Str, t: Str)
    requires forall i :: 0 <= i < |s| ==> s[i] == WIDE
    ensures Utf8Length(Escaped(s + t)) == 3 * |s| + Utf8Length(Escaped(t))
  {
    if s == [] {
      assert s + t == t;
    } else {
      EscapedStep(s + t);
      assert (s + t)[1..] == s[1..] + t;
      WideRun(s[1..], t);
    }
  }

  lemma SingleBytes(c: CodeUnit)
    ensures Utf8Length(Escaped([c])) == UnitBytes(c)
  {
    EscapedStep([c]);
    assert [c][1..] == [];
  }

  /** The eleventh slice of the long literal reaches the bound. */
  lemma WorstSlice(size: nat)
    requires size >= 3
    ensures var s := Slice(Worst(12 * size, size), size, 10);
      Utf8Length(Escaped(s)) == 3 * size + 6
  {
    var s := Slice(Worst(12 * size, size), size, 10);
    var run: Str := s[1..size - 1];
    assert |s| == size && forall i :: 0 <= i < size ==> s[i] == WorstUnit(10 * size + i, 12 * size, size);
    forall i | 0 <= i < |run| ensures run[i] == WIDE {
      assert run[i] == s[i + 1] == WorstUnit(10 * size + (i + 1), 12 * size, size);
    }
    assert s == [LOW] + (run + [HIGH]);
    EscapedStep([LOW] + (run + [HIGH]));
    assert ([LOW] + (run + [HIGH]))[1..] == run + [HIGH];
    WideRun(run, [HIGH]);
    SingleBytes(HIGH);
  }

  /** A literal that fits one slice: all its units but the quotes take three bytes. */
  lemma ShortLiteral(n: nat, size: nat)
    requires size >= 3 && 2 <= n <= size
    ensures Slice(Worst(n, size), size, 0) == Worst(n, size)
    ensures Utf8Length(Escaped(Worst(n, size))) == 3 * n - 2
    ensures Utf8Length(Worst(n, size)) == 3 * n - 4
  {
    var s := Worst(n, size);
    var run: Str := s[1..n - 1];
    assert s == [QUOTE] + (run + [QUOTE]);
    EscapedStep([QUOTE] + (run + [QUOTE]));
    assert ([QUOTE] + (run + [QUOTE]))[1..] == run + [QUOTE];
    WideRun(run, [QUOTE]);
    SingleBytes(QUOTE);
    PlainRun(run, [QUOTE]);
    assert [QUOTE][1..] == [];
  }

  lemma {:induction false} PlainRun(s: Str, t: Str)
    requires forall i :: 0 <= i < |s| ==> s[i] == WIDE
    ensures Utf8Length(s + t) == 3 * |s| + Utf8Length(t)
  {
    if s == [] {
      assert s + t == t;
    } else {
      assert (s + t)[1..] == s[1..] + t;
      PlainRun(s[1..], t);
    }
  }

  /** A limit under the largest frame fails a JSON string that is sent in chunks. */
  lemma WorstFails(limit: nat, id: string) returns (payload: Str, k: nat)
    requires limit >= 1 && LargestFrame(limit, id) > limit
    ensures JsonString(payload) && Chunked(payload, limit) && k < ChunkCount(|payload|, limit)
    ensures !PassesGate(ChunkFrame(payload, limit, id, k), limit)
  {
    var size := ChunkSize(limit);
    if limit < 24576 {
      payload, k := Worst(Min(8 * limit, size), size), 0;
      WorstIsJson(|payload|, size);
      ShortLiteral(|payload|, size);
      CeilDivCovers(|payload|, size);
    } else {
      payload, k := Worst(12 * size, size), 10;
      WorstIsJson(12 * size, size);
      WorstSlice(size);
      TwelveChunks(size);
      EnvelopeSize(id, 10, 12);
    }
    ChunkFrameBytes(id, k, ChunkCount(|payload|, limit), Slice(payload, size, k));
  }

  lemma TwelveChunks(size: nat)
    requires size > 0
    ensures CeilDiv(12 * size, size) == 12
  {
    DivLess(12 * size + size - 1, size, 13);
    CeilDivCovers(12 * size, size);
    TwelveAtLeast(CeilDiv(12 * size, size), size);
  }

  lemma AtMostEleven(n: nat, size: nat)
    requires n <= 11
    ensures n * size <= 11 * size
  {
    assert (11 - n) * size >= 0;
  }

  lemma TwelveAtLeast(n: nat, size: nat)
    requires n * size >= 12 * size && size > 0
    ensures n >= 12
  {
    if n < 12 {
      AtMostEleven(n, size);
    }
  }

  /** Main result: the chunk frames of every payload within the aggregate cap pass the
      gate exactly when the largest possible frame does. Restricting the payloads to
      JSON string literals changes nothing. */
  lemma ChunkFramesPassIff(limit: nat, id: string)
    requires limit >= 1
    ensures (forall payload :: JsonText(payload) && Chunked(payload, limit) ==> AllPass(payload, limit, id))
      <==> LargestFrame(limit, id) <= limit
    ensures (forall payload :: JsonString(payload) && Chunked(payload, limit) ==> AllPass(payload, limit, id))
      <==> LargestFrame(limit, id) <= limit
  {
    if LargestFrame(limit, id) <= limit {
      forall payload | JsonText(payload) && Chunked(payload, limit) ensures AllPass(payload, limit, id) {
        forall k: nat | k < ChunkCount(|payload|, limit) ensures PassesGate(ChunkFrame(payload, limit, id, k), limit) {
          NoLargerFrame(payload, limit, id, k);
        }
      }
    } else {
      var payload, k := WorstFails(limit, id);
      assert !AllPass(payload, limit, id);
    }
  }

  /** The threshold: three times the minimum chunk size, two cut ends and the envelope.
      Above 64 KiB the quarter of the limit always leaves room. */
  lemma FrameThreshold(limit: nat, id: string)
    requires |id| <= 16000
    ensures LargestFrame(limit, id) <= limit <==> limit >= 3 * MIN_CHUNK + 60 + |id|
  {
  }

  // ----- the sender's ids -----

  predicate PlainUnit(c: CodeUnit) {
    0x20 <= c < 0x80 && c != QUOTE && c != BACKSLASH
  }

  lemma {:induction false} PlainEscaped(s: Str)
    requires forall i :: 0 <= i < |s| ==> PlainUnit(s[i])
    ensures Escaped(s) == s
  {
    if s != [] {
      assert PlainUnit(s[0]);
      PlainEscaped(s[1..]);
    }
  }

  predicate PlainChar(c: char) {
    c as int < 0x80 && PlainUnit(c as int as CodeUnit)
  }

  lemma {:induction false} DecimalPlain(n: nat)
    ensures forall i :: 0 <= i < |Decimal(n)| ==> PlainChar(Decimal(n)[i])
  {
    if n >= 10 {
      DecimalPlain(n / 10);
    }
  }

  /** The sender's ids stand in the envelope as they are. */
  lemma ChunkIdPlain(now: nat, counter: nat)
    ensures Escaped(Ascii(ChunkId(now, counter))) == Ascii(ChunkId(now, counter))
  {
    DecimalPlain(now);
    DecimalPlain(counter);
    assert forall i :: 0 <= i < |ChunkId(now, counter)| ==> PlainChar(ChunkId(now, counter)[i]);
    PlainEscaped(Ascii(ChunkId(now, counter)));
  }

  function Pow10(d: nat): nat {
    if d == 0 then 1 else 10 * Pow10(d - 1)
  }

  lemma {:induction false} DecimalShort(n: nat, d: nat)
    requires d >= 1 && n < Pow10(d)
    ensures |Decimal(n)| <= d
    decreases d
  {
    if n >= 10 {
      DecimalShort(n / 10, d - 1);
    }
  }

  /** With the ids the sender makes: 20 digits for the time and the counter are far more
      than either ever has. */
  lemma SenderThreshold(limit: nat, now: nat, counter: nat)
    requires now < Pow10(20) && counter < Pow10(20)
    ensures var id := ChunkId(now, counter);
      && |id| <= 45
      && (LargestFrame(limit, id) <= limit <==> limit >= 3 * MIN_CHUNK + 60 + |id|)
  {
    DecimalShort(now, 20);
    DecimalShort(counter, 20);
    FrameThreshold(limit, ChunkId(now, counter));
  }

  // ----- plain frames -----

  lemma PlainBytes(payload: Str, limit: nat)
    ensures PassesGate(Plain(payload), limit) <==> Utf8Length(payload) <= limit
  {
  }

  /** A string literal has at most three bytes a unit between its quotes. */
  lemma LiteralBytes(s: Str)
    requires JsonString(s)
    ensures Utf8Length(s) <= 3 * |s| - 4
  {
    var inner: Str := s[1..|s| - 1];
    assert s == [QUOTE] + (inner + [QUOTE]);
    assert inner == [] || inner[0] == s[1];
    QuotedBytes(inner);
    Utf8LengthBounds(inner);
  }

  lemma QuotedBytes(inner: Str)
    requires inner == [] || !LowSurrogate(inner[0])
    ensures Utf8Length([QUOTE] + (inner + [QUOTE])) == Utf8Length(inner) + 2
  {
    Utf8Append([QUOTE], inner + [QUOTE]);
    Utf8Append(inner, [QUOTE]);
    AsciiBytes([QUOTE]);
  }

  /** Below the chunking limit every string literal passes as a plain frame exactly when
      three bytes for every unit of half the limit do; no limit from 12 on is enough. */
  lemma PlainFramesPassIff(limit: nat)
    ensures (forall s :: JsonString(s) && !NeedsChunks(true, |s|, limit) ==> PassesGate(Plain(s), limit))
      <==> 3 * (limit / 2) <= limit + 4
    ensures limit >= 12 ==> 3 * (limit / 2) > limit + 4
  {
    if 3 * (limit / 2) <= limit + 4 {
      forall s | JsonString(s) && !NeedsChunks(true, |s|, limit) ensures PassesGate(Plain(s), limit) {
        LiteralBytes(s);
      }
    } else {
      var n := limit / 2;
      WorstIsJson(n, n + 1);
      ShortLiteral(n, n + 1);
      assert !PassesGate(Plain(Worst(n, n + 1)), limit);
    }
  }
}
