/** What the receiving table does with every envelope, and what it holds after any run of them. */
module ChunkTable {
  import opened Basics
  import opened Text
  import opened Chunking

  /** An id, and a number below a total of at most 4096. */
  predicate Envelope(e: ChunkEvent) {
    e.id != "" && 0 <= e.index && e.index < e.total && e.total <= 4096
  }

  /** The assembly has been open for no more than a minute. */
  predicate Young(a: Assembly, now: int) {
    now - a.startedAt <= 60000
  }

  /** The envelope goes on with the id's assembly; otherwise it opens one, even if an older one has run out. */
  predicate Continues(table: Assemblies, e: ChunkEvent) {
    e.id in table && Young(table[e.id], e.now)
  }

  predicate JustOpened(a: Assembly, total: int, now: int) {
    && |a.chunks| == total && (forall k :: 0 <= k < |a.chunks| ==> a.chunks[k] == None)
    && a.received == 0 && a.bytes == 0 && a.startedAt == now
  }

  /** The assembly the envelope joins. */
  predicate Joined(table: Assemblies, e: ChunkEvent, a: Assembly) {
    if Continues(table, e) then a == table[e.id] else JustOpened(a, e.total, e.now)
  }

  /** The assembly with the piece stored: a piece for a filled slot replaces it and counts no more. */
  predicate Extended(a: Assembly, b: Assembly, index: int, data: Str) {
    && 0 <= index < |a.chunks| && b.chunks == a.chunks[index := Some(data)] && b.startedAt == a.startedAt
    && b.received == a.received + (if a.chunks[index].None? then 1 else 0)
    && b.bytes == a.bytes + if a.chunks[index].None? then |data| else 0
  }

  /** The other assemblies: those that have run out are gone, the rest is as it was. */
  ghost predicate OthersSwept(table: Assemblies, next: Assemblies, e: ChunkEvent) {
    && (forall id :: id != e.id ==> (id in next <==> id in table && Young(table[id], e.now)))
    && (forall id :: id != e.id && id in next ==> next[id] == table[id])
  }

  /** What becomes of an envelope that joins assembly a, and becomes b if its piece is stored. */
  predicate Handled(next: Assemblies, outcome: Outcome, cap: nat, e: ChunkEvent, a: Assembly, b: Assembly) {
    if |a.chunks| != e.total then outcome == Dropped && e.id !in next
    else
      && Extended(a, b, e.index, e.data)
      && if b.bytes > cap then outcome == TooLarge && e.id !in next
         else if b.received == e.total then outcome == Routed(JoinChunks(b.chunks)) && e.id !in next
         else outcome == Buffered && e.id in next && next[e.id] == b
  }

  lemma CurrentMeans(table: Assemblies, e: ChunkEvent)
    requires Envelope(e)
    ensures ValidEnvelope(e) && Joined(table, e, Current(Swept(table, e.now), e))
  {
  }

  /** Every envelope: a bad one changes nothing; any other ends all assemblies that have run out, its own id's
      too, and is then dropped, refused, routed or kept. */
  lemma ReceiveMeans(table: Assemblies, cap: nat, e: ChunkEvent) returns (a: Assembly, b: Assembly)
    ensures var next, outcome := Receive(table, cap, e).0, Receive(table, cap, e).1;
      && (!Envelope(e) ==> outcome == Invalid && next == table)
      && (Envelope(e) ==> OthersSwept(table, next, e) && Joined(table, e, a) && Handled(next, outcome, cap, e, a, b))
  {
    a, b := Assembly([], 0, 0, 0), Assembly([], 0, 0, 0);
    if Envelope(e) {
      CurrentMeans(table, e);
      a := Current(Swept(table, e.now), e);
      if |a.chunks| == e.total {
        b := Filled(a, e.index, e.data);
      }
    }
  }

  // ----- what the table holds after any run -----

  /** An open assembly: at most 4096 slots, some but not all of them filled, exactly as many as it counts, with no
      more text counted than the cap, opened by an envelope of its id at the time it tells. */
  ghost predicate Open(events: seq<ChunkEvent>, id: string, a: Assembly, cap: nat) {
    && id != "" && |a.chunks| <= 4096 && 0 < a.received < |a.chunks| && a.received == FilledCount(a.chunks)
    && a.bytes <= cap && OpenedBy(events, id, a)
  }

  ghost predicate OpenedBy(events: seq<ChunkEvent>, id: string, a: Assembly) {
    exists k :: 0 <= k < |events| && events[k].id == id && events[k].now == a.startedAt && events[k].total == |a.chunks|
  }

  ghost predicate AllOpen(events: seq<ChunkEvent>, table: Assemblies, cap: nat) {
    forall id :: id in table ==> Open(events, id, table[id], cap)
  }

  lemma OpenedLater(events: seq<ChunkEvent>, e: ChunkEvent, id: string, a: Assembly)
    requires OpenedBy(events, id, a)
    ensures OpenedBy(events + [e], id, a)
  {
    var k :| 0 <= k < |events| && events[k].id == id && events[k].now == a.startedAt && events[k].total == |a.chunks|;
    assert (events + [e])[k] == events[k];
  }

  lemma JoinedOpened(events: seq<ChunkEvent>, table: Assemblies, cap: nat, e: ChunkEvent, a: Assembly)
    requires AllOpen(events, table, cap) && Envelope(e) && Joined(table, e, a)
    ensures OpenedBy(events + [e], e.id, a) && |a.chunks| <= 4096 && a.received == FilledCount(a.chunks)
  {
    if Continues(table, e) {
      OpenedLater(events, e, e.id, a);
    } else {
      assert a.chunks == Text.Blank(e.total);
      BlankCounts(e.total);
      assert (events + [e])[|events|] == e;
    }
  }

  lemma KeptOpen(events: seq<ChunkEvent>, cap: nat, e: ChunkEvent, a: Assembly, b: Assembly)
    requires OpenedBy(events + [e], e.id, a) && |a.chunks| <= 4096 && a.received == FilledCount(a.chunks) && e.id != ""
    requires Extended(a, b, e.index, e.data) && b.bytes <= cap && b.received != |b.chunks|
    ensures Open(events + [e], e.id, b, cap)
  {
    CountsAfterStore(a.chunks, e.index, e.data);
    FullMeansAllFilled(b.chunks);
    if FilledCount(b.chunks) == 0 {
      SomeFilled(b.chunks, e.index);
    }
    var all := events + [e];
    var k :| 0 <= k < |all| && all[k].id == e.id && all[k].now == a.startedAt && all[k].total == |a.chunks|;
    assert all[k].total == |b.chunks|;
  }

  lemma {:induction false} SomeFilled(chunks: seq<Option<Str>>, i: nat)
    requires i < |chunks| && chunks[i].Some?
    ensures FilledCount(chunks) > 0
  {
    if i < |chunks| - 1 {
      SomeFilled(chunks[..|chunks| - 1], i);
    }
  }

  lemma StepOpen(events: seq<ChunkEvent>, table: Assemblies, cap: nat, e: ChunkEvent)
    requires AllOpen(events, table, cap)
    ensures AllOpen(events + [e], Receive(table, cap, e).0, cap)
  {
    var next := Receive(table, cap, e).0;
    var a, b := ReceiveMeans(table, cap, e);
    forall id | id in next ensures Open(events + [e], id, next[id], cap) {
      if Envelope(e) && id == e.id {
        JoinedOpened(events, table, cap, e, a);
        KeptOpen(events, cap, e, a, b);
      } else {
        OpenedLater(events, e, id, table[id]);
      }
    }
  }

  /** Main result: whatever envelopes arrive, the table only ever holds open assemblies. */
  lemma {:induction false} TableHolds(cap: nat, events: seq<ChunkEvent>)
    ensures AllOpen(events, TableAfter(map[], cap, events), cap)
  {
    if events != [] {
      var n := |events| - 1;
      TableHolds(cap, events[..n]);
      StepOpen(events[..n], TableAfter(map[], cap, events[..n]), cap, events[n]);
      assert events[..n] + [events[n]] == events;
    }
  }

  /** After a good envelope no assembly is older than a minute. */
  lemma NothingStale(cap: nat, events: seq<ChunkEvent>, e: ChunkEvent, id: string)
    requires Envelope(e) && id in Receive(TableAfter(map[], cap, events), cap, e).0
    ensures Young(Receive(TableAfter(map[], cap, events), cap, e).0[id], e.now)
  {
    var a, b := ReceiveMeans(TableAfter(map[], cap, events), cap, e);
  }

  /** What is routed is the join of a full set of pieces. */
  lemma RoutedIsWhole(cap: nat, events: seq<ChunkEvent>, e: ChunkEvent) returns (chunks: seq<Option<Str>>)
    requires Receive(TableAfter(map[], cap, events), cap, e).1.Routed?
    ensures Receive(TableAfter(map[], cap, events), cap, e).1.text == JoinChunks(chunks) && |chunks| == e.total
    ensures forall k :: 0 <= k < |chunks| ==> chunks[k].Some?
    ensures 0 <= e.index < |chunks| && chunks[e.index] == Some(e.data)
  {
    var table := TableAfter(map[], cap, events);
    var a, b := ReceiveMeans(table, cap, e);
    TableHolds(cap, events);
    JoinedOpened(events, table, cap, e, a);
    CountsAfterStore(a.chunks, e.index, e.data);
    FullMeansAllFilled(b.chunks);
    chunks := b.chunks;
  }
}
