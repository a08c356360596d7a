/** What the loader answers to each request in a run, in terms of the requests sent before. */
module HotSwapReplies {
  import opened Basics
  import opened Text
  import opened HotSwap

  lemma RunNext(digest: Digest, events: seq<Event>, e: Event)
    ensures StateAfter(digest, events + [e]) == Step(digest, StateAfter(digest, events), e).0
  {
    assert (events + [e])[..|events|] == events;
  }

  /** The last hello of the run, if there was one, allowed hot swap. */
  ghost predicate LastHelloAllowed(events: seq<Event>) {
    exists k :: 0 <= k < |events| && LastHelloAt(events, k) && events[k].hotSwapEnabled
  }

  predicate LastHelloAt(events: seq<Event>, k: int)
    requires 0 <= k < |events|
  {
    events[k].Hello? && forall j :: k < j < |events| ==> !events[j].Hello?
  }

  lemma {:induction false} AllowedMeans(digest: Digest, events: seq<Event>)
    ensures StateAfter(digest, events).allowed <==> LastHelloAllowed(events)
  {
    if events != [] {
      var n := |events| - 1;
      AllowedMeans(digest, events[..n]);
      assert events[..n] + [events[n]] == events;
      RunNext(digest, events[..n], events[n]);
      LastHelloNext(events[..n], events[n]);
    }
  }

  lemma LastHelloNext(events: seq<Event>, e: Event)
    ensures LastHelloAllowed(events + [e]) <==> if e.Hello? then e == Hello(true) else LastHelloAllowed(events)
  {
    var all := events + [e];
    assert all[|events|] == e;
    if e.Hello? {
      assert LastHelloAt(all, |events|);
      forall k | 0 <= k < |all| && LastHelloAt(all, k) ensures k == |events| {
      }
    } else {
      forall k | 0 <= k < |events| ensures LastHelloAt(all, k) <==> LastHelloAt(events, k) {
        assert forall j :: 0 <= j < |events| ==> all[j] == events[j];
      }
      if LastHelloAllowed(events) {
        var k :| 0 <= k < |events| && LastHelloAt(events, k) && events[k].hotSwapEnabled;
        assert LastHelloAt(all, k);
      }
      if LastHelloAllowed(all) {
        var k :| 0 <= k < |all| && LastHelloAt(all, k) && all[k].hotSwapEnabled;
        assert LastHelloAt(events, k);
      }
    }
  }

  predicate Request(e: Event) {
    e.Begin? || e.ChunkPart? || e.Commit? || e.Revert?
  }

  /** Unless the last hello allowed it, every request is refused and changes nothing. */
  lemma RefusedUnlessAllowed(digest: Digest, events: seq<Event>, e: Event)
    requires Request(e) && !LastHelloAllowed(events)
    ensures Step(digest, StateAfter(digest, events), e) == (StateAfter(digest, events), Rejected)
    ensures StateAfter(digest, events + [e]) == StateAfter(digest, events)
  {
    AllowedMeans(digest, events);
    RunNext(digest, events, e);
  }

  // ----- the announcement -----

  /** Between 1 and 4096 chunks, at least one byte, 64 lower-case hex digits, and a build id. */
  predicate GoodHeader(e: Event)
    requires e.Begin?
  {
    && 1 <= e.totalChunks <= 4096 && e.byteLength >= 1 && e.buildId != "" && |e.sha256| == 64
    && forall k :: 0 <= k < 64 ==> e.sha256[k] in "0123456789abcdef"
  }

  lemma HexMeans(s: string)
    requires |s| == 64
    ensures HexDigest(s) <==> forall k :: 0 <= k < 64 ==> s[k] in "0123456789abcdef"
  {
    forall c: char ensures ('0' <= c <= '9' || 'a' <= c <= 'f') <==> c in "0123456789abcdef" {
      HexChar(c);
    }
    if HexDigest(s) {
      forall k | 0 <= k < 64 ensures s[k] in "0123456789abcdef" {
        assert s[k] in s;
      }
    }
    if forall k :: 0 <= k < 64 ==> s[k] in "0123456789abcdef" {
      forall c | c in s ensures '0' <= c <= '9' || 'a' <= c <= 'f' {
        var k :| 0 <= k < 64 && s[k] == c;
      }
    }
  }

  lemma HexChar(c: char)
    ensures ('0' <= c <= '9' || 'a' <= c <= 'f') <==> c in "0123456789abcdef"
  {
    var digits := "0123456789abcdef";
    assert digits == ['0', '1', '2', '3', '4', '5', '6', '7', '8', '9', 'a', 'b', 'c', 'd', 'e', 'f'];
    if '0' <= c <= '9' {
      assert digits[c as int - '0' as int] == c;
    } else if 'a' <= c <= 'f' {
      assert digits[c as int - 'a' as int + 10] == c;
    }
  }

  /** Nothing has been stored yet, and the header is the announced one. */
  predicate OpensFor(b: Buffer, e: Event)
    requires e.Begin?
  {
    && |b.chunks| == e.totalChunks && (forall k :: 0 <= k < |b.chunks| ==> b.chunks[k] == None)
    && b.byteLength == e.byteLength && b.sha256 == e.sha256 && b.buildId == e.buildId && b.received == 0 && b.bytes == 0
  }

  /** A good header, when allowed, is answered with ready and opens an empty buffer in place of any earlier one;
      any other is refused and changes nothing. */
  lemma BeginMeans(digest: Digest, events: seq<Event>, e: Event)
    requires e.Begin?
    ensures var s := StateAfter(digest, events);
      var t, reply := StateAfter(digest, events + [e]), Step(digest, s, e).1;
      if LastHelloAllowed(events) && GoodHeader(e)
      then reply == Ready && t.buffer.Some? && OpensFor(t.buffer.value, e) && t == s.(buffer := t.buffer)
      else reply == Rejected && t == s
  {
    AllowedMeans(digest, events);
    RunNext(digest, events, e);
    if |e.sha256| == 64 {
      HexMeans(e.sha256);
    }
  }

  // ----- the pieces -----

  /** The piece goes into the buffer in place of what was there. */
  predicate Stores(b: Buffer, now: Buffer, index: int, data: Str) {
    && 0 <= index < |b.chunks| && now.chunks == b.chunks[index := Some(data)]
    && now.byteLength == b.byteLength && now.sha256 == b.sha256 && now.buildId == b.buildId
  }

  /** A piece for a slot of the live buffer is stored and answered with the number of filled slots, unless what is
      stored then exceeds four times the announced size: then the transfer is dropped. Any other piece is refused
      and changes nothing. */
  lemma PieceMeans(digest: Digest, events: seq<Event>, index: int, data: Option<Str>)
    requires LastHelloAllowed(events)
    ensures var s := StateAfter(digest, events);
      var e := ChunkPart(index, data);
      var t, reply := StateAfter(digest, events + [e]), Step(digest, s, e).1;
      if s.buffer.None? || data.None? || !(0 <= index < |s.buffer.value.chunks|) then reply == Rejected && t == s
      else
        var chunks := s.buffer.value.chunks[index := data];
        && t == s.(buffer := t.buffer)
        && if StoredLength(chunks) > 4 * s.buffer.value.byteLength then reply == Rejected && t.buffer.None?
           else
             && t.buffer.Some? && Stores(s.buffer.value, t.buffer.value, index, data.value)
             && reply == Progress(FilledCount(chunks), |chunks|)
  {
    AllowedMeans(digest, events);
    ReachableInv(digest, events);
    RunNext(digest, events, ChunkPart(index, data));
    var s := StateAfter(digest, events);
    if s.buffer.Some? && data.Some? && 0 <= index < |s.buffer.value.chunks| {
      CountsAfterStore(s.buffer.value.chunks, index, data.value);
    }
  }

  // ----- the commit and the revert -----

  predicate AllFilled(chunks: seq<Option<Str>>) {
    forall k :: 0 <= k < |chunks| ==> chunks[k].Some?
  }

  lemma {:induction false} AllFilledCounts(chunks: seq<Option<Str>>)
    ensures FilledCount(chunks) == |chunks| <==> AllFilled(chunks)
  {
    FullMeansAllFilled(chunks);
    if AllFilled(chunks) && chunks != [] {
      AllFilledCounts(chunks[..|chunks| - 1]);
    }
  }

  /** An allowed commit closes the live buffer. The bundle goes on to the digest check exactly when every slot is
      filled and the joined text has the announced length in bytes. */
  lemma CommitMeans(digest: Digest, events: seq<Event>)
    requires LastHelloAllowed(events) && StateAfter(digest, events).buffer.Some?
    ensures var s := StateAfter(digest, events);
      var b, t, reply := s.buffer.value, StateAfter(digest, events + [Commit]), Step(digest, s, Commit).1;
      && t.buffer.None? && t.active == s.active && t.running == s.running
      && if AllFilled(b.chunks) && Utf8Length(JoinChunks(b.chunks)) == b.byteLength
         then reply == Pending && t.checking == s.checking + [Bundle(JoinChunks(b.chunks), b.byteLength, b.sha256)]
         else reply == Rejected && t.checking == s.checking
  {
    AllowedMeans(digest, events);
    ReachableInv(digest, events);
    AllFilledCounts(StateAfter(digest, events).buffer.value.chunks);
    RunNext(digest, events, Commit);
  }

  /** An allowed revert drops the buffer, makes the baked dispatcher active and tells whether a pushed one was. */
  lemma RevertMeans(digest: Digest, events: seq<Event>)
    requires LastHelloAllowed(events)
    ensures var s, t := StateAfter(digest, events), StateAfter(digest, events + [Revert]);
      && t.buffer.None? && t.active == Baked && t.checking == s.checking && t.running == s.running
      && Step(digest, s, Revert).1 == Reverted(s.active.Pushed?)
  {
    AllowedMeans(digest, events);
    RunNext(digest, events, Revert);
  }

  /** A hello sets the permission and nothing else: a transfer, a check or an evaluation under way goes on. So
      one that repeats the permission makes no difference to what follows. */
  lemma HelloMeans(digest: Digest, events: seq<Event>, enabled: bool, later: seq<Event>)
    ensures var s, t := StateAfter(digest, events), StateAfter(digest, events + [Hello(enabled)]);
      && t.allowed == enabled && t.buffer == s.buffer && t.checking == s.checking && t.running == s.running
      && t.active == s.active
    ensures enabled == LastHelloAllowed(events) ==>
      Run(digest, StateAfter(digest, events + [Hello(enabled)]), later) ==
        Run(digest, StateAfter(digest, events), later)
  {
    RunNext(digest, events, Hello(enabled));
    AllowedMeans(digest, events);
  }

  function Removed(s: seq<Bundle>, slot: nat): seq<Bundle>
    requires slot < |s|
  {
    s[..slot] + s[slot + 1..]
  }

  /** The digest of a waiting bundle decides it once: it goes on to its evaluation, behind those under way, if it
      has the announced digest, and is dropped if not. */
  lemma DigestMeans(digest: Digest, events: seq<Event>, slot: nat)
    ensures var s, t := StateAfter(digest, events), StateAfter(digest, events + [DigestReady(slot)]);
      if slot >= |s.checking| then t == s
      else
        var b := s.checking[slot];
        && t == s.(checking := Removed(s.checking, slot), running := t.running)
        && t.running == s.running + if digest(b.source) == b.sha256 then [b] else []
  {
    RunNext(digest, events, DigestReady(slot));
  }

  /** An evaluation ends once too: a valid bundle becomes the active dispatcher, any other changes nothing. */
  lemma EvaluatedMeans(digest: Digest, events: seq<Event>, slot: nat, valid: bool)
    ensures var s, t := StateAfter(digest, events), StateAfter(digest, events + [Evaluated(slot, valid)]);
      if slot >= |s.running| then t == s
      else
        t == s.(running := Removed(s.running, slot),
                active := if valid then Pushed(s.running[slot].source) else s.active)
  {
    RunNext(digest, events, Evaluated(slot, valid));
  }
}
