/** Oversized messages: cut into chunk envelopes by the extension, reassembled by
    the server. */
module Chunking {
  import opened Basics
  import opened Text

  // ----- sender -----

  const MIN_CHUNK: nat := 16384
  const AGGREGATE_MULTIPLIER: nat := 8
  const MAX_CHUNKS: nat := 4096
  const ASSEMBLY_TTL_MS: int := 60000

  datatype Frame = Plain(text: Str) | Chunk(id: string, index: nat, total: nat, data: Str)

  function ChunkSize(maxPayload: nat): nat {
    Max(MIN_CHUNK, maxPayload / 4)
  }

  function ChunkCount(length: nat, maxPayload: nat): nat {
    CeilDiv(length, ChunkSize(maxPayload))
  }

  predicate NeedsChunks(supportsChunking: bool, length: nat, maxPayload: nat) {
    supportsChunking && length > maxPayload / 2
  }

  method Send(payload: Str, supportsChunking: bool, maxPayload: nat, id: string) returns (frames: seq<Frame>)
    ensures !NeedsChunks(supportsChunking, |payload|, maxPayload) ==> frames == [Plain(payload)]
    ensures NeedsChunks(supportsChunking, |payload|, maxPayload) ==>
      && |frames| == ChunkCount(|payload|, maxPayload)
      && forall k :: 0 <= k < |frames| ==>
           frames[k] == Chunk(id, k, |frames|, Slice(payload, ChunkSize(maxPayload), k))
  {
    if NeedsChunks(supportsChunking, |payload|, maxPayload) {
      var chunkSize := ChunkSize(maxPayload);
      var total := CeilDiv(|payload|, chunkSize);
      frames := [];
      for k := 0 to total
        invariant |frames| == k
        invariant forall j :: 0 <= j < k ==> frames[j] == Chunk(id, j, total, Slice(payload, chunkSize, j))
      {
        frames := frames + [Chunk(id, k, total, Slice(payload, chunkSize, k))];
      }
    } else {
      frames := [Plain(payload)];
    }
  }

  /** A payload within the aggregate cap never needs more than 33 chunks. */
  lemma ChunkCountBound(length: nat, maxPayload: nat)
    requires length <= maxPayload * AGGREGATE_MULTIPLIER
    ensures ChunkCount(length, maxPayload) <= 33
  {
    var size := ChunkSize(maxPayload);
    assert 4 * (maxPayload / 4) + 3 >= maxPayload;
    assert length <= 33 * size;
    DivLess(length + size - 1, size, 34);
  }

  lemma SliceLength(s: Str, size: nat, k: nat)
    ensures k * size <= (k + 1) * size && |Slice(s, size, k)| <= size
  {
    assert (k + 1) * size == k * size + size;
  }

  // ----- receiver -----

  datatype Assembly = Assembly(chunks: seq<Option<Str>>, received: nat, bytes: nat, startedAt: int)

  datatype Outcome = Invalid | Dropped | Buffered | TooLarge | Routed(text: Str)

  datatype ChunkEvent = ChunkEvent(now: int, id: string, index: int, total: int, data: Str)

  type Assemblies = map<string, Assembly>

  predicate ValidEnvelope(e: ChunkEvent) {
    e.id != "" && 0 <= e.index < e.total && e.total <= MAX_CHUNKS
  }

  function Swept(table: Assemblies, now: int): Assemblies {
    map id | id in table && now - table[id].startedAt <= ASSEMBLY_TTL_MS :: table[id]
  }

  /** The assembly after storing a piece: a repeated index replaces the piece but
      adds neither to the count nor to the byte total. */
  function Filled(a: Assembly, index: nat, data: Str): Assembly
    requires index < |a.chunks|
  {
    if a.chunks[index].None?
    then Assembly(a.chunks[index := Some(data)], a.received + 1, a.bytes + |data|, a.startedAt)
    else a.(chunks := a.chunks[index := Some(data)])
  }

  function Current(table: Assemblies, e: ChunkEvent): Assembly
    requires ValidEnvelope(e)
  {
    if e.id in table then table[e.id] else Assembly(Blank(e.total), 0, 0, e.now)
  }

  /** One chunk envelope: the new table and what became of the envelope. */
  function Receive(table: Assemblies, cap: nat, e: ChunkEvent): (Assemblies, Outcome) {
    if !ValidEnvelope(e) then (table, Invalid)
    else
      var swept := Swept(table, e.now);
      var assembly := Current(swept, e);
      if |assembly.chunks| != e.total then (swept - {e.id}, Dropped)
      else
        var filled := Filled(assembly, e.index, e.data);
        if filled.bytes > cap then (swept - {e.id}, TooLarge)
        else if filled.received == e.total then (swept - {e.id}, Routed(JoinChunks(filled.chunks)))
        else (swept[e.id := filled], Buffered)
  }

  class ChunkReceiver {
    var assemblies: Assemblies
    const aggregateCap: nat

    constructor (maxPayload: nat)
      ensures assemblies == map[] && aggregateCap == maxPayload * AGGREGATE_MULTIPLIER
    {
      assemblies := map[];
      aggregateCap := maxPayload * AGGREGATE_MULTIPLIER;
    }

    method HandleChunk(e: ChunkEvent) returns (outcome: Outcome)
      modifies this
      ensures (assemblies, outcome) == Receive(old(assemblies), aggregateCap, e)
    {
      if e.id == "" || e.index < 0 || e.total < 1 || e.total > MAX_CHUNKS || e.index >= e.total {
        return Invalid;
      }
      Sweep(e.now);
      if e.id !in assemblies {
        assemblies := assemblies[e.id := Assembly(Blank(e.total), 0, 0, e.now)];
      }
      var assembly := assemblies[e.id];
      if |assembly.chunks| != e.total {
        assemblies := assemblies - {e.id};
        return Dropped;
      }
      assembly := Filled(assembly, e.index, e.data);
      assemblies := assemblies[e.id := assembly];
      assert assemblies == Swept(old(assemblies), e.now)[e.id := assembly];
      assert assemblies - {e.id} == Swept(old(assemblies), e.now) - {e.id};
      if assembly.bytes > aggregateCap {
        assemblies := assemblies - {e.id};
        return TooLarge;
      }
      if assembly.received == e.total {
        assemblies := assemblies - {e.id};
        return Routed(JoinChunks(assembly.chunks));
      }
      return Buffered;
    }

    method Sweep(now: int)
      modifies this
      ensures assemblies == Swept(old(assemblies), now)
    {
      var table, remaining := assemblies, assemblies.Keys;
      while remaining != {}
        invariant remaining <= table.Keys
        invariant assemblies == map id | id in table &&
          (id in remaining || now - table[id].startedAt <= ASSEMBLY_TTL_MS) :: table[id]
        decreases |remaining|
      {
        var id :| id in remaining;
        remaining := remaining - {id};
        if now - table[id].startedAt > ASSEMBLY_TTL_MS {
          assemblies := assemblies - {id};
        }
      }
    }
  }

  function TableAfter(table: Assemblies, cap: nat, events: seq<ChunkEvent>): Assemblies {
    if events == [] then table
    else Receive(TableAfter(table, cap, events[..|events| - 1]), cap, events[|events| - 1]).0
  }

  function OutcomeAt(table: Assemblies, cap: nat, events: seq<ChunkEvent>, k: nat): Outcome
    requires k < |events|
  {
    Receive(TableAfter(table, cap, events[..k]), cap, events[k]).1
  }

  // ----- round trip -----

  /** The envelopes with this id carry the sender's chunks of `payload`. */
  ghost predicate Genuine(events: seq<ChunkEvent>, id: string, payload: Str, size: nat, total: nat) {
    forall k :: 0 <= k < |events| && events[k].id == id ==>
      && 0 <= events[k].index < total && events[k].total == total
      && events[k].data == Slice(payload, size, events[k].index)
  }

  /** No chunk of the id is delivered twice. */
  ghost predicate Once(events: seq<ChunkEvent>, id: string) {
    forall j, k :: 0 <= j < k < |events| && events[j].id == id && events[k].id == id ==>
      events[j].index != events[k].index
  }

  ghost predicate Arrives(events: seq<ChunkEvent>, id: string, index: nat) {
    exists k :: 0 <= k < |events| && events[k].id == id && events[k].index == index
  }

  /** Time does not run backwards, and the chunks of the id arrive within the time to live. */
  ghost predicate Timely(events: seq<ChunkEvent>, id: string) {
    && (forall j, k :: 0 <= j < k < |events| ==> events[j].now <= events[k].now)
    && (forall j, k :: 0 <= j < k < |events| && events[j].id == id && events[k].id == id ==>
          events[k].now - events[j].now <= ASSEMBLY_TTL_MS)
  }

  /** Each chunk of `payload` is delivered once, in some order and in time,
      interleaved with any envelopes of other ids. */
  ghost predicate Delivers(events: seq<ChunkEvent>, id: string, payload: Str, size: nat, total: nat) {
    && Genuine(events, id, payload, size, total) && Once(events, id) && Timely(events, id)
    && forall i: nat {:trigger Arrives(events, id, i)} :: i < total ==> Arrives(events, id, i)
  }

  /** The chunk indices of `id` seen in the first n events. */
  ghost function Seen(events: seq<ChunkEvent>, id: string, n: nat): set<nat>
    requires n <= |events|
  {
    set k | 0 <= k < n && events[k].id == id && events[k].index >= 0 :: events[k].index
  }

  ghost function PartialChunks(payload: Str, size: nat, total: nat, seen: set<nat>): (r: seq<Option<Str>>)
    ensures |r| == total
  {
    seq(total, i requires 0 <= i < total => if i in seen then Some(Slice(payload, size, i)) else None)
  }

  /** One of the first m envelopes of the id came at that time. */
  ghost predicate Started(events: seq<ChunkEvent>, id: string, m: nat, at: int)
    requires m <= |events|
  {
    exists f :: 0 <= f < m && events[f].id == id && events[f].now == at
  }

  /** The assembly holds exactly the slices in `seen`. */
  ghost predicate PartOf(a: Assembly, payload: Str, size: nat, total: nat, seen: set<nat>) {
    && a.chunks == PartialChunks(payload, size, total, seen)
    && a.received == |seen| && a.bytes == Stored(Slices(payload, size, total), seen, total)
  }

  /** The table holds exactly the part of the payload seen so far, started by one of
      its envelopes, and nothing before the first or after the last one. */
  ghost predicate Holding(table: Assemblies, events: seq<ChunkEvent>, id: string, payload: Str, size: nat, total: nat,
                          n: nat)
    requires n <= |events|
  {
    var seen := Seen(events, id, n);
    if seen == {} || |seen| == total then id !in table
    else id in table && PartOf(table[id], payload, size, total, seen) && Started(events, id, n, table[id].startedAt)
  }

  ghost predicate AllBelow(s: set<nat>, n: nat) {
    forall i :: i in s ==> i < n
  }

  lemma {:induction false} IndexBound(s: set<nat>, n: nat)
    requires AllBelow(s, n)
    ensures |s| <= n
    ensures |s| == n ==> forall i :: 0 <= i < n ==> i in s
  {
    if n > 0 {
      if n - 1 in s {
        IndexBound(s - {n - 1}, n - 1);
      } else {
        IndexBound(s, n - 1);
      }
    }
  }

  /** A chunk that arrives has not been seen before, so some slice is still missing. */
  lemma NotYetComplete(events: seq<ChunkEvent>, id: string, payload: Str, size: nat, total: nat, n: nat)
    requires Genuine(events, id, payload, size, total) && Once(events, id) && n < |events| && events[n].id == id
    ensures events[n].index !in Seen(events, id, n)
    ensures |Seen(events, id, n)| < total
    ensures Seen(events, id, n + 1) == Seen(events, id, n) + {events[n].index}
  {
    IndexBound(Seen(events, id, n), total);
  }

  lemma MissingIndex(seen: set<nat>, total: nat) returns (i: nat)
    requires |seen| < total
    ensures i < total && i !in seen
  {
    if Indices(total) <= seen {
      SubsetSize(Indices(total), seen);
      assert false;
    }
    i :| i in Indices(total) && i !in seen;
  }

  /** While some slice is missing, its envelope is still to come. */
  lemma MoreToCome(events: seq<ChunkEvent>, id: string, payload: Str, size: nat, total: nat, n: nat)
    returns (later: nat)
    requires Delivers(events, id, payload, size, total) && n <= |events|
    requires |Seen(events, id, n)| < total
    ensures n <= later < |events| && events[later].id == id
  {
    var i := MissingIndex(Seen(events, id, n), total);
    assert Arrives(events, id, i);
    forall k | 0 <= k < n && events[k].id == id ensures events[k].index != i {
      assert events[k].index >= 0 ==> events[k].index in Seen(events, id, n);
    }
    later :| 0 <= later < |events| && events[later].id == id && events[later].index == i;
  }

  ghost function Indices(n: nat): (r: set<nat>)
    ensures |r| == n && forall i: nat :: i in r <==> i < n
  {
    if n == 0 then {} else Indices(n - 1) + {n - 1}
  }

  /** The assembly is still fresh when the next event arrives, as long as it is incomplete. */
  lemma StaysFresh(table: Assemblies, events: seq<ChunkEvent>, id: string, payload: Str, size: nat, total: nat, n: nat)
    requires Delivers(events, id, payload, size, total) && n < |events|
    requires Holding(table, events, id, payload, size, total, n) && id in table
    ensures id in Swept(table, events[n].now)
  {
    var f :| 0 <= f < n && events[f].id == id && events[f].now == table[id].startedAt;
    IndexBound(Seen(events, id, n), total);
    var later := MoreToCome(events, id, payload, size, total, n);
  }

  /** An envelope of another id leaves the assembly alone. */
  lemma ForeignStep(table: Assemblies, cap: nat, events: seq<ChunkEvent>, id: string, payload: Str, size: nat,
                    total: nat, n: nat)
    requires Delivers(events, id, payload, size, total) && n < |events| && events[n].id != id
    requires Holding(table, events, id, payload, size, total, n)
    ensures Holding(Receive(table, cap, events[n]).0, events, id, payload, size, total, n + 1)
  {
    assert Seen(events, id, n + 1) == Seen(events, id, n);
    if id in table {
      StaysFresh(table, events, id, payload, size, total, n);
    }
  }

  /** The text the pieces seen so far amount to never exceeds the payload. */
  lemma StoredWithinPayload(payload: Str, size: nat, total: nat, seen: set<nat>)
    requires size > 0 && total >= CeilDiv(|payload|, size)
    ensures Stored(Slices(payload, size, total), seen, total) <= |payload|
  {
    var pieces := Slices(payload, size, total);
    StoredAtMostJoin(pieces, seen, total);
    assert pieces[..total] == pieces;
    SlicesRebuild(payload, size, total);
  }

  lemma {:induction false} JoinComplete(chunks: seq<Option<Str>>, pieces: seq<Str>)
    requires |chunks| == |pieces| && forall i :: 0 <= i < |pieces| ==> chunks[i] == Some(pieces[i])
    ensures JoinChunks(chunks) == Join(pieces)
  {
    if pieces != [] {
      var n := |pieces| - 1;
      JoinComplete(chunks[..n], pieces[..n]);
      JoinAppend(pieces[..n], pieces[n]);
      assert pieces == pieces[..n] + [pieces[n]];
    }
  }

  ghost predicate Feasible(payload: Str, size: nat, total: nat, cap: nat) {
    size > 0 && total == CeilDiv(|payload|, size) && 1 <= total <= MAX_CHUNKS && |payload| <= cap
  }

  /** When a chunk of the id arrives, the assembly it joins holds exactly what was seen. */
  lemma CurrentIsPartial(table: Assemblies, events: seq<ChunkEvent>, id: string, payload: Str, size: nat, total: nat,
                         n: nat)
    requires Delivers(events, id, payload, size, total) && n < |events| && events[n].id == id && id != ""
    requires total <= MAX_CHUNKS && Holding(table, events, id, payload, size, total, n)
    ensures ValidEnvelope(events[n])
    ensures var a := Current(Swept(table, events[n].now), events[n]);
      PartOf(a, payload, size, total, Seen(events, id, n)) && Started(events, id, n + 1, a.startedAt)
  {
    NotYetComplete(events, id, payload, size, total, n);
    if id in table {
      StaysFresh(table, events, id, payload, size, total, n);
    } else {
      StoredNothing(Slices(payload, size, total), total);
    }
  }

  lemma {:induction false} StoredNothing(pieces: seq<Str>, n: nat)
    requires n <= |pieces|
    ensures Stored(pieces, {}, n) == 0
  {
    if n > 0 {
      StoredNothing(pieces, n - 1);
    }
  }

  /** The envelope's slice joins the assembly, within the cap. */
  lemma OwnFilled(table: Assemblies, cap: nat, events: seq<ChunkEvent>, id: string, payload: Str, size: nat,
                  total: nat, n: nat)
    returns (filled: Assembly)
    requires Delivers(events, id, payload, size, total) && n < |events| && events[n].id == id && id != ""
    requires Feasible(payload, size, total, cap) && Holding(table, events, id, payload, size, total, n)
    ensures Fits(table, events[n], filled) && filled.bytes <= cap
    ensures PartOf(filled, payload, size, total, Seen(events, id, n + 1)) &&
      Started(events, id, n + 1, filled.startedAt)
  {
    var e := events[n];
    CurrentIsPartial(table, events, id, payload, size, total, n);
    NotYetComplete(events, id, payload, size, total, n);
    var current := Current(Swept(table, e.now), e);
    filled := Filled(current, e.index, e.data);
    StepAmounts(current, payload, size, total, Seen(events, id, n), e.index);
    StoredWithinPayload(payload, size, total, Seen(events, id, n + 1));
  }

  predicate Fits(table: Assemblies, e: ChunkEvent, filled: Assembly) {
    && ValidEnvelope(e) && |Current(Swept(table, e.now), e).chunks| == e.total
    && filled == Filled(Current(Swept(table, e.now), e), e.index, e.data)
  }

  lemma OwnSeen(events: seq<ChunkEvent>, id: string, payload: Str, size: nat, total: nat, n: nat)
    requires Delivers(events, id, payload, size, total) && n < |events| && events[n].id == id && events[n].index >= 0
    ensures Seen(events, id, n + 1) != {} && AllBelow(Seen(events, id, n + 1), total) && events[n].total == total
  {
    assert events[n].index in Seen(events, id, n + 1);
  }

  /** An envelope of the id itself: stored, or the one that completes the payload. */
  lemma OwnStep(table: Assemblies, cap: nat, events: seq<ChunkEvent>, id: string, payload: Str, size: nat, total: nat,
                n: nat)
    requires Delivers(events, id, payload, size, total) && n < |events| && events[n].id == id && id != ""
    requires Feasible(payload, size, total, cap)
    requires Holding(table, events, id, payload, size, total, n)
    ensures Holding(Receive(table, cap, events[n]).0, events, id, payload, size, total, n + 1)
    ensures Receive(table, cap, events[n]).1 ==
      if |Seen(events, id, n + 1)| == total then Routed(payload) else Buffered
  {
    var filled := OwnFilled(table, cap, events, id, payload, size, total, n);
    Received(table, cap, events[n], filled);
    OwnSeen(events, id, payload, size, total, n);
    if |Seen(events, id, n + 1)| == total {
      CompleteText(filled.chunks, payload, size, total, Seen(events, id, n + 1));
    }
  }

  /** What becomes of an envelope that fits its assembly. */
  lemma Received(table: Assemblies, cap: nat, e: ChunkEvent, filled: Assembly)
    requires Fits(table, e, filled) && filled.bytes <= cap
    ensures filled.received == e.total ==>
      e.id !in Receive(table, cap, e).0 && Receive(table, cap, e).1 == Routed(JoinChunks(filled.chunks))
    ensures filled.received != e.total ==>
      e.id in Receive(table, cap, e).0 && Receive(table, cap, e).0[e.id] == filled &&
        Receive(table, cap, e).1 == Buffered
  {
  }

  lemma CompleteText(chunks: seq<Option<Str>>, payload: Str, size: nat, total: nat, seen: set<nat>)
    requires size > 0 && total == CeilDiv(|payload|, size) && |seen| == total && AllBelow(seen, total)
    requires chunks == PartialChunks(payload, size, total, seen)
    ensures JoinChunks(chunks) == payload
  {
    IndexBound(seen, total);
    JoinComplete(chunks, Slices(payload, size, total));
    SlicesRebuild(payload, size, total);
  }

  lemma StepAmounts(a: Assembly, payload: Str, size: nat, total: nat, seen: set<nat>, index: nat)
    requires PartOf(a, payload, size, total, seen) && index < total && index !in seen
    ensures var f := Filled(a, index, Slice(payload, size, index));
      PartOf(f, payload, size, total, seen + {index}) && f.startedAt == a.startedAt
  {
    StoredAfterFill(Slices(payload, size, total), seen, index, total);
    assert PartialChunks(payload, size, total, seen)[index := Some(Slice(payload, size, index))]
        == PartialChunks(payload, size, total, seen + {index});
  }

  lemma EventStep(table: Assemblies, cap: nat, events: seq<ChunkEvent>, id: string, payload: Str, size: nat,
                  total: nat, n: nat)
    requires Delivers(events, id, payload, size, total) && n < |events| && id != ""
    requires Feasible(payload, size, total, cap) && Holding(table, events, id, payload, size, total, n)
    ensures Holding(Receive(table, cap, events[n]).0, events, id, payload, size, total, n + 1)
  {
    if events[n].id == id {
      OwnStep(table, cap, events, id, payload, size, total, n);
    } else {
      ForeignStep(table, cap, events, id, payload, size, total, n);
    }
  }

  lemma NothingHeld(table: Assemblies, events: seq<ChunkEvent>, id: string, payload: Str, size: nat, total: nat)
    requires id !in table
    ensures Holding(table, events, id, payload, size, total, 0)
  {
    assert Seen(events, id, 0) == {};
  }

  lemma TableNext(table: Assemblies, cap: nat, events: seq<ChunkEvent>, n: nat)
    requires n < |events|
    ensures TableAfter(table, cap, events[..n + 1]) == Receive(TableAfter(table, cap, events[..n]), cap, events[n]).0
  {
    assert events[..n + 1][..n] == events[..n];
  }

  lemma {:induction false} HoldingThroughout(table: Assemblies, cap: nat, events: seq<ChunkEvent>, id: string,
                                             payload: Str,
                                             size: nat, total: nat, n: nat)
    requires Delivers(events, id, payload, size, total) && n <= |events| && id != ""
    requires Feasible(payload, size, total, cap) && id !in table
    ensures Holding(TableAfter(table, cap, events[..n]), events, id, payload, size, total, n)
  {
    if n == 0 {
      assert events[..0] == [];
      NothingHeld(table, events, id, payload, size, total);
    } else {
      HoldingThroughout(table, cap, events, id, payload, size, total, n - 1);
      TableNext(table, cap, events, n - 1);
      EventStep(TableAfter(table, cap, events[..n - 1]), cap, events, id, payload, size, total, n - 1);
    }
  }

  /** Main result: however the chunks of a payload are ordered and interleaved with
      envelopes of other ids, the last of them routes the payload, every earlier one
      is stored, and none trips the aggregate cap. */
  lemma ChunkRoundTrip(table: Assemblies, maxPayload: nat, events: seq<ChunkEvent>, id: string, payload: Str, k: nat)
    requires id != "" && id !in table && payload != []
    requires |payload| <= maxPayload * AGGREGATE_MULTIPLIER
    requires Delivers(events, id, payload, ChunkSize(maxPayload), ChunkCount(|payload|, maxPayload))
    requires k < |events| && events[k].id == id
    ensures OutcomeAt(table, maxPayload * AGGREGATE_MULTIPLIER, events, k) ==
      if exists j :: k < j < |events| && events[j].id == id then Buffered else Routed(payload)
  {
    var cap, size, total := maxPayload * AGGREGATE_MULTIPLIER, ChunkSize(maxPayload), ChunkCount(|payload|, maxPayload);
    ChunkCountBound(|payload|, maxPayload);
    CeilDivCovers(|payload|, size);
    HoldingThroughout(table, cap, events, id, payload, size, total, k);
    OwnStep(TableAfter(table, cap, events[..k]), cap, events, id, payload, size, total, k);
    LastIffComplete(events, id, payload, size, total, k);
  }

  /** The chunk that completes the set is the last one of its id. */
  lemma LastIffComplete(events: seq<ChunkEvent>, id: string, payload: Str, size: nat, total: nat, k: nat)
    requires Delivers(events, id, payload, size, total) && k < |events| && events[k].id == id
    ensures |Seen(events, id, k + 1)| == total <==> !exists j :: k < j < |events| && events[j].id == id
  {
    IndexBound(Seen(events, id, k + 1), total);
    if |Seen(events, id, k + 1)| < total {
      var later := MoreToCome(events, id, payload, size, total, k + 1);
    } else {
      forall j | k < j < |events| ensures events[j].id != id {
        NoneAfterComplete(events, id, payload, size, total, k, j);
      }
    }
  }

  lemma NoneAfterComplete(events: seq<ChunkEvent>, id: string, payload: Str, size: nat, total: nat, k: nat, j: nat)
    requires Genuine(events, id, payload, size, total) && Once(events, id) && k < j < |events|
    requires |Seen(events, id, k + 1)| >= total
    ensures events[j].id != id
  {
    SubsetSize(Seen(events, id, k + 1), Seen(events, id, j));
    if events[j].id == id {
      NotYetComplete(events, id, payload, size, total, j);
    }
  }
}
