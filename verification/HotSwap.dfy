/** Dispatcher hot swap: the loader's begin/chunk/commit/revert protocol and the
    server-side push that drives it. Hashing and evaluating a bundle finish later,
    as events of their own, so other requests may come in between. */
module HotSwap {
  import opened Basics
  import opened Text

  const MAX_CHUNKS: nat := 4096
  const MIN_CHUNK_BYTES: nat := 4096

  datatype Buffer = Buffer(chunks: seq<Option<Str>>, byteLength: nat, sha256: string, buildId: string, received: nat,
    bytes: int)

  /** A complete transfer on its way to becoming the active dispatcher. */
  datatype Bundle = Bundle(source: Str, byteLength: nat, sha256: string)

  datatype Dispatcher = Baked | Pushed(source: Str)

  /** `checking` waits for the digest, `running` for the evaluation to finish. */
  datatype Loader = Loader(allowed: bool, buffer: Option<Buffer>, checking: seq<Bundle>, running: seq<Bundle>,
    active: Dispatcher)

  datatype Event =
    | Hello(hotSwapEnabled: bool)
    | Begin(totalChunks: int, byteLength: int, sha256: string, buildId: string)
    | ChunkPart(index: int, data: Option<Str>)
    | Commit
    | DigestReady(slot: nat)
    | Evaluated(slot: nat, valid: bool)
    | Revert

  datatype Reply =
    Ready | Progress(received: nat, total: nat) | Rejected | Pending | Swapped | Reverted(wasPushed: bool) | Silent

  type Digest = Str -> string

  predicate HexDigest(s: string) {
    |s| == 64 && forall c :: c in s ==> '0' <= c <= '9' || 'a' <= c <= 'f'
  }

  predicate ValidBegin(totalChunks: int, byteLength: int, sha256: string, buildId: string) {
    1 <= totalChunks <= MAX_CHUNKS && byteLength >= 1 && HexDigest(sha256) && buildId != ""
  }

  function Initial(): Loader {
    Loader(false, None, [], [], Baked)
  }

  function Without<T>(s: seq<T>, i: nat): seq<T>
    requires i < |s|
  {
    s[..i] + s[i + 1..]
  }

  /** One loader event, as a function of the whole state. */
  function Step(digest: Digest, s: Loader, e: Event): (Loader, Reply) {
    match e
    case Hello(enabled) => (s.(allowed := enabled), Silent)
    case Begin(total, byteLength, sha, buildId) =>
      if !s.allowed || !ValidBegin(total, byteLength, sha, buildId) then (s, Rejected)
      else (s.(buffer := Some(Buffer(Blank(total), byteLength, sha, buildId, 0, 0))), Ready)
    case ChunkPart(index, data) =>
      if !s.allowed || s.buffer.None? then (s, Rejected)
      else
        var b := s.buffer.value;
        if !(0 <= index < |b.chunks|) || data.None? then (s, Rejected)
        else
          var isNew := b.chunks[index].None?;
          var received := if isNew then b.received + 1 else b.received;
          var bytes := b.bytes + |data.value| - PieceLength(b.chunks[index]);
          if bytes > b.byteLength * 4 then (s.(buffer := None), Rejected)
          else (s.(buffer := Some(b.(chunks := b.chunks[index := data], received := received, bytes := bytes))),
                Progress(received, |b.chunks|))
    case Commit =>
      if !s.allowed || s.buffer.None? then (s, Rejected)
      else
        var b, cleared := s.buffer.value, s.(buffer := None);
        var source := JoinChunks(b.chunks);
        if b.received != |b.chunks| || Utf8Length(source) != b.byteLength then (cleared, Rejected)
        else (cleared.(checking := s.checking + [Bundle(source, b.byteLength, b.sha256)]), Pending)
    case DigestReady(slot) =>
      if slot >= |s.checking| then (s, Silent)
      else
        var bundle, rest := s.checking[slot], s.(checking := Without(s.checking, slot));
        if digest(bundle.source) != bundle.sha256 then (rest, Rejected)
        else (rest.(running := s.running + [bundle]), Pending)
    case Evaluated(slot, valid) =>
      if slot >= |s.running| then (s, Silent)
      else
        var bundle, rest := s.running[slot], s.(running := Without(s.running, slot));
        if !valid then (rest, Rejected) else (rest.(active := Pushed(bundle.source)), Swapped)
    case Revert =>
      if !s.allowed then (s, Rejected)
      else (s.(buffer := None, active := Baked), Reverted(s.active != Baked))
  }

  class HotSwapLoader {
    var allowed: bool
    var buffer: Option<Buffer>
    var checking: seq<Bundle>
    var running: seq<Bundle>
    var active: Dispatcher
    const digest: Digest

    constructor (digest: Digest)
      ensures State() == Initial() && this.digest == digest
    {
      allowed, buffer, checking, running, active := false, None, [], [], Baked;
      this.digest := digest;
    }

    ghost function State(): Loader
      reads this
    {
      Loader(allowed, buffer, checking, running, active)
    }

    method HandleBegin(totalChunks: int, byteLength: int, sha256: string, buildId: string) returns (reply: Reply)
      modifies this
      ensures (State(), reply) == Step(digest, old(State()), Begin(totalChunks, byteLength, sha256, buildId))
    {
      if !allowed {
        return Rejected;
      }
      if totalChunks < 1 || totalChunks > MAX_CHUNKS || byteLength < 1 || !HexDigest(sha256) || buildId == "" {
        return Rejected;
      }
      buffer := Some(Buffer(Blank(totalChunks), byteLength, sha256, buildId, 0, 0));
      return Ready;
    }

    method HandleChunk(index: int, data: Option<Str>) returns (reply: Reply)
      modifies this
      ensures (State(), reply) == Step(digest, old(State()), ChunkPart(index, data))
    {
      if !allowed || buffer.None? {
        return Rejected;
      }
      var b := buffer.value;
      if index < 0 || index >= |b.chunks| || data.None? {
        return Rejected;
      }
      if b.chunks[index].None? {
        b := b.(received := b.received + 1);
        b := b.(bytes := b.bytes + |data.value|);
      } else {
        b := b.(bytes := b.bytes + |data.value| - PieceLength(b.chunks[index]));
      }
      if b.bytes > b.byteLength * 4 {
        buffer := None;
        return Rejected;
      }
      b := b.(chunks := b.chunks[index := data]);
      buffer := Some(b);
      return Progress(b.received, |b.chunks|);
    }

    method HandleCommit() returns (reply: Reply)
      modifies this
      ensures (State(), reply) == Step(digest, old(State()), Commit)
    {
      if !allowed || buffer.None? {
        return Rejected;
      }
      var b := buffer.value;
      buffer := None;
      if b.received != |b.chunks| {
        return Rejected;
      }
      var source := JoinChunks(b.chunks);
      if Utf8Length(source) != b.byteLength {
        return Rejected;
      }
      checking := checking + [Bundle(source, b.byteLength, b.sha256)];
      return Pending;
    }

    method OnDigest(slot: nat) returns (reply: Reply)
      modifies this
      ensures (State(), reply) == Step(digest, old(State()), DigestReady(slot))
    {
      if slot >= |checking| {
        return Silent;
      }
      var bundle := checking[slot];
      checking := Without(checking, slot);
      if digest(bundle.source) != bundle.sha256 {
        return Rejected;
      }
      running := running + [bundle];
      return Pending;
    }

    method OnEvaluated(slot: nat, valid: bool) returns (reply: Reply)
      modifies this
      ensures (State(), reply) == Step(digest, old(State()), Evaluated(slot, valid))
    {
      if slot >= |running| {
        return Silent;
      }
      var bundle := running[slot];
      running := Without(running, slot);
      if !valid {
        return Rejected;
      }
      active := Pushed(bundle.source);
      return Swapped;
    }

    method HandleRevert() returns (reply: Reply)
      modifies this
      ensures (State(), reply) == Step(digest, old(State()), Revert)
    {
      if !allowed {
        return Rejected;
      }
      buffer := None;
      var wasPushed := active != Baked;
      active := Baked;
      return Reverted(wasPushed);
    }
  }

  // ----- what holds in every reachable state -----

  ghost predicate Announced(events: seq<Event>, totalChunks: nat, byteLength: nat, sha256: string) {
    exists k :: 0 <= k < |events| && events[k].Begin? && events[k].totalChunks == totalChunks
                && events[k].byteLength == byteLength && events[k].sha256 == sha256
  }

  ghost predicate Sent(events: seq<Event>, index: nat, data: Str) {
    exists k :: 0 <= k < |events| && events[k] == ChunkPart(index, Some(data))
  }

  /** The live buffer: counters exact, budget kept, header announced, pieces sent. */
  ghost predicate BufferOk(events: seq<Event>, b: Buffer) {
    && 1 <= |b.chunks| <= MAX_CHUNKS && b.byteLength >= 1
    && b.received == FilledCount(b.chunks)
    && b.bytes == StoredLength(b.chunks) && b.bytes <= 4 * b.byteLength
    && Announced(events, |b.chunks|, b.byteLength, b.sha256)
    && forall i {:trigger b.chunks[i]} :: 0 <= i < |b.chunks| && b.chunks[i].Some? ==>
         Sent(events, i, b.chunks[i].value)
  }

  /** `source` is the join of pieces that were all sent, for a transfer announced with this header. */
  ghost predicate Transferred(events: seq<Event>, bundle: Bundle) {
    && Utf8Length(bundle.source) == bundle.byteLength
    && exists chunks: seq<Option<Str>> ::
         && JoinChunks(chunks) == bundle.source
         && Announced(events, |chunks|, bundle.byteLength, bundle.sha256)
         && forall i {:trigger chunks[i]} :: 0 <= i < |chunks| ==> chunks[i].Some? && Sent(events, i, chunks[i].value)
  }

  ghost predicate Genuine(digest: Digest, events: seq<Event>, bundle: Bundle) {
    Transferred(events, bundle) && digest(bundle.source) == bundle.sha256
  }

  ghost predicate Inv(digest: Digest, events: seq<Event>, s: Loader) {
    && (s.buffer.Some? ==> BufferOk(events, s.buffer.value))
    && (forall b :: b in s.checking ==> Transferred(events, b))
    && (forall b :: b in s.running ==> Genuine(digest, events, b))
    && (s.active.Pushed? ==> exists b: Bundle :: b.source == s.active.source && Genuine(digest, events, b))
  }

  function StateAfter(digest: Digest, events: seq<Event>): Loader {
    if events == [] then Initial()
    else Step(digest, StateAfter(digest, events[..|events| - 1]), events[|events| - 1]).0
  }

  lemma SentLater(events: seq<Event>, e: Event, index: nat, data: Str)
    requires Sent(events, index, data)
    ensures Sent(events + [e], index, data)
  {
    var k :| 0 <= k < |events| && events[k] == ChunkPart(index, Some(data));
    assert (events + [e])[k] == events[k];
  }

  lemma AnnouncedLater(events: seq<Event>, e: Event, totalChunks: nat, byteLength: nat, sha256: string)
    requires Announced(events, totalChunks, byteLength, sha256)
    ensures Announced(events + [e], totalChunks, byteLength, sha256)
  {
    var k :| 0 <= k < |events| && events[k].Begin? && events[k].totalChunks == totalChunks
             && events[k].byteLength == byteLength && events[k].sha256 == sha256;
    assert (events + [e])[k] == events[k];
  }

  lemma BufferLater(events: seq<Event>, e: Event, b: Buffer)
    requires BufferOk(events, b)
    ensures BufferOk(events + [e], b)
  {
    AnnouncedLater(events, e, |b.chunks|, b.byteLength, b.sha256);
    forall i | 0 <= i < |b.chunks| && b.chunks[i].Some? ensures Sent(events + [e], i, b.chunks[i].value) {
      SentLater(events, e, i, b.chunks[i].value);
    }
  }

  lemma TransferredLater(events: seq<Event>, e: Event, bundle: Bundle)
    requires Transferred(events, bundle)
    ensures Transferred(events + [e], bundle)
  {
    var chunks: seq<Option<Str>> :|
      && JoinChunks(chunks) == bundle.source
      && Announced(events, |chunks|, bundle.byteLength, bundle.sha256)
      && forall i {:trigger chunks[i]} :: 0 <= i < |chunks| ==> chunks[i].Some? && Sent(events, i, chunks[i].value);
    AnnouncedLater(events, e, |chunks|, bundle.byteLength, bundle.sha256);
    forall i | 0 <= i < |chunks| ensures chunks[i].Some? && Sent(events + [e], i, chunks[i].value) {
      SentLater(events, e, i, chunks[i].value);
    }
  }

  lemma InvLater(digest: Digest, events: seq<Event>, e: Event, s: Loader)
    requires Inv(digest, events, s)
    ensures Inv(digest, events + [e], s)
  {
    if s.buffer.Some? {
      BufferLater(events, e, s.buffer.value);
    }
    forall b | b in s.checking ensures Transferred(events + [e], b) {
      TransferredLater(events, e, b);
    }
    forall b | b in s.running ensures Genuine(digest, events + [e], b) {
      TransferredLater(events, e, b);
    }
    if s.active.Pushed? {
      var b: Bundle :| b.source == s.active.source && Genuine(digest, events, b);
      TransferredLater(events, e, b);
      assert Genuine(digest, events + [e], b);
    }
  }

  /** A stored piece keeps the counters exact and the bytes within four times the announced size. */
  lemma ChunkKeepsBuffer(events: seq<Event>, b: Buffer, index: nat, data: Str)
    requires BufferOk(events, b) && index < |b.chunks| && Sent(events, index, data)
    requires b.bytes + |data| - PieceLength(b.chunks[index]) <= b.byteLength * 4
    ensures BufferOk(events, b.(chunks := b.chunks[index := Some(data)],
                                received := if b.chunks[index].None? then b.received + 1 else b.received,
                                bytes := b.bytes + |data| - PieceLength(b.chunks[index])))
  {
    CountsAfterStore(b.chunks, index, data);
  }

  lemma CommitTransfers(events: seq<Event>, b: Buffer)
    requires BufferOk(events, b) && b.received == |b.chunks| && Utf8Length(JoinChunks(b.chunks)) == b.byteLength
    ensures Transferred(events, Bundle(JoinChunks(b.chunks), b.byteLength, b.sha256))
  {
    FullMeansAllFilled(b.chunks);
    var chunks := b.chunks;
    assert forall i {:trigger chunks[i]} :: 0 <= i < |chunks| ==> chunks[i].Some? && Sent(events, i, chunks[i].value);
  }

  lemma WithoutMembers<T>(s: seq<T>, i: nat)
    requires i < |s|
    ensures forall x :: x in Without(s, i) ==> x in s
  {
  }

  lemma BeginKeepsInv(digest: Digest, all: seq<Event>, s: Loader, e: Event)
    requires Inv(digest, all, s) && e.Begin? && e in all
    ensures Inv(digest, all, Step(digest, s, e).0)
  {
    if s.allowed && ValidBegin(e.totalChunks, e.byteLength, e.sha256, e.buildId) {
      BlankCounts(e.totalChunks);
      assert Announced(all, e.totalChunks, e.byteLength, e.sha256);
    }
  }

  lemma PartKeepsInv(digest: Digest, all: seq<Event>, s: Loader, e: Event)
    requires Inv(digest, all, s) && e.ChunkPart? && e in all
    ensures Inv(digest, all, Step(digest, s, e).0)
  {
    if s.allowed && s.buffer.Some? && 0 <= e.index < |s.buffer.value.chunks| && e.data.Some? {
      assert Sent(all, e.index, e.data.value);
      var b := s.buffer.value;
      if b.bytes + |e.data.value| - PieceLength(b.chunks[e.index]) <= b.byteLength * 4 {
        ChunkKeepsBuffer(all, b, e.index, e.data.value);
      }
    }
  }

  lemma CommitKeepsInv(digest: Digest, all: seq<Event>, s: Loader)
    requires Inv(digest, all, s)
    ensures Inv(digest, all, Step(digest, s, Commit).0)
  {
    if s.allowed && s.buffer.Some? {
      var b := s.buffer.value;
      if b.received == |b.chunks| && Utf8Length(JoinChunks(b.chunks)) == b.byteLength {
        CommitTransfers(all, b);
      }
    }
  }

  lemma FinishKeepsInv(digest: Digest, all: seq<Event>, s: Loader, e: Event)
    requires Inv(digest, all, s) && (e.DigestReady? || e.Evaluated?)
    ensures Inv(digest, all, Step(digest, s, e).0)
  {
    if e.DigestReady? && e.slot < |s.checking| {
      WithoutMembers(s.checking, e.slot);
      assert s.checking[e.slot] in s.checking;
    }
    if e.Evaluated? && e.slot < |s.running| {
      WithoutMembers(s.running, e.slot);
      assert s.running[e.slot] in s.running;
    }
  }

  /** Every event keeps the invariant. */
  lemma StepKeepsInv(digest: Digest, events: seq<Event>, s: Loader, e: Event)
    requires Inv(digest, events, s)
    ensures Inv(digest, events + [e], Step(digest, s, e).0)
  {
    InvLater(digest, events, e, s);
    assert e in events + [e];
    match e
    case Hello(_) =>
    case Begin(_, _, _, _) => BeginKeepsInv(digest, events + [e], s, e);
    case ChunkPart(_, _) => PartKeepsInv(digest, events + [e], s, e);
    case Commit => CommitKeepsInv(digest, events + [e], s);
    case DigestReady(_) => FinishKeepsInv(digest, events + [e], s, e);
    case Evaluated(_, _) => FinishKeepsInv(digest, events + [e], s, e);
    case Revert =>
  }

  /** Main result: in every reachable state the live buffer's counters are exact and
      within budget, every pending bundle was completely transferred as announced,
      and a pushed dispatcher passed both the length and the digest check. */
  lemma {:induction false} ReachableInv(digest: Digest, events: seq<Event>)
    ensures Inv(digest, events, StateAfter(digest, events))
  {
    if events != [] {
      var n := |events| - 1;
      ReachableInv(digest, events[..n]);
      StepKeepsInv(digest, events[..n], StateAfter(digest, events[..n]), events[n]);
      assert events[..n] + [events[n]] == events;
    }
  }

  /** The active dispatcher changes only by a revert or by an evaluated bundle that
      was transferred as announced with a matching digest. */
  lemma ActiveChanges(digest: Digest, events: seq<Event>, e: Event)
    ensures var s := StateAfter(digest, events);
      var t := Step(digest, s, e).0;
      t.active != s.active ==>
        || (e.Revert? && s.allowed && t.active == Baked)
        || (e.Evaluated? && e.valid && e.slot < |s.running| && Genuine(digest, events, s.running[e.slot])
            && t.active == Pushed(s.running[e.slot].source))
  {
    ReachableInv(digest, events);
    var s := StateAfter(digest, events);
    if e.Evaluated? && e.slot < |s.running| {
      assert s.running[e.slot] in s.running;
    }
  }

  function Run(digest: Digest, s: Loader, events: seq<Event>): Loader {
    if events == [] then s else Step(digest, Run(digest, s, events[..|events| - 1]), events[|events| - 1]).0
  }

  /** Nothing in flight can still become active: no bundle is being evaluated and
      none being checked has the announced digest. */
  ghost predicate NothingInFlight(digest: Digest, s: Loader) {
    s.running == [] && forall b :: b in s.checking ==> digest(b.source) != b.sha256
  }

  /** A revert lasts until the next commit exactly when nothing in flight can still
      become active; a bundle that can will overtake the revert. */
  lemma RevertLastsIff(digest: Digest, s: Loader)
    requires s.allowed
    ensures NothingInFlight(digest, s) <==>
      forall later: seq<Event> :: Commit !in later ==> Run(digest, Step(digest, s, Revert).0, later).active == Baked
  {
    var t := Step(digest, s, Revert).0;
    if NothingInFlight(digest, s) {
      forall later: seq<Event> | Commit !in later ensures Run(digest, t, later).active == Baked {
        IdleStaysBaked(digest, t, later);
      }
    } else {
      var later := Overtaking(digest, s, t);
    }
  }

  lemma Overtaking(digest: Digest, s: Loader, t: Loader) returns (later: seq<Event>)
    requires s.allowed && t == Step(digest, s, Revert).0 && !NothingInFlight(digest, s)
    ensures Commit !in later && Run(digest, t, later).active != Baked
  {
    if s.running != [] {
      later := [Evaluated(0, true)];
      assert later[..0] == [];
    } else {
      var b :| b in s.checking && digest(b.source) == b.sha256;
      var k :| 0 <= k < |s.checking| && s.checking[k] == b;
      later := [DigestReady(k), Evaluated(0, true)];
      assert later[..1][..0] == [] && later[..1] == [DigestReady(k)];
      assert Run(digest, t, later[..1]) == Step(digest, t, DigestReady(k)).0;
    }
  }

  lemma {:induction false} IdleStaysBaked(digest: Digest, s: Loader, later: seq<Event>)
    requires NothingInFlight(digest, s) && s.active == Baked && Commit !in later
    ensures NothingInFlight(digest, Run(digest, s, later)) && Run(digest, s, later).active == Baked
  {
    if later != [] {
      var n := |later| - 1;
      IdleStaysBaked(digest, s, later[..n]);
      var u, e := Run(digest, s, later[..n]), later[n];
      assert e != Commit;
      if e.DigestReady? && e.slot < |u.checking| {
        assert u.checking[e.slot] in u.checking;
        WithoutMembers(u.checking, e.slot);
      }
    }
  }

  // ----- the push -----

  lemma {:induction false} JoinPrefix(source: Str, size: nat, n: nat, total: nat)
    requires n <= total
    ensures JoinChunks(PushedChunks(source, size, n, total)) == Join(Slices(source, size, n))
    decreases total
  {
    var chunks := PushedChunks(source, size, n, total);
    if total > 0 {
      if n == total {
        assert chunks[..total - 1] == PushedChunks(source, size, n - 1, total - 1);
        JoinPrefix(source, size, n - 1, total - 1);
        assert Slices(source, size, n) == Slices(source, size, n - 1) + [Slice(source, size, n - 1)];
        JoinAppend(Slices(source, size, n - 1), Slice(source, size, n - 1));
      } else {
        assert chunks[..total - 1] == PushedChunks(source, size, n, total - 1);
        JoinPrefix(source, size, n, total - 1);
      }
    }
  }

  /** The buffer after the first n slices of a push. */
  ghost function PushedChunks(source: Str, size: nat, n: nat, total: nat): (r: seq<Option<Str>>)
    ensures |r| == total
  {
    seq(total, i requires 0 <= i < total => if i < n then Some(Slice(source, size, i)) else None)
  }

  ghost function PushedBuffer(source: Str, size: nat, n: nat, total: nat, byteLength: nat, sha256: string,
                              buildId: string): Buffer
  {
    Buffer(PushedChunks(source, size, n, total), byteLength, sha256, buildId, n, |Join(Slices(source, size, n))|)
  }

  /** The slices sent so far never exceed the announced size, let alone the budget. */
  lemma PushWithinBudget(source: Str, size: nat, n: nat)
    ensures |Join(Slices(source, size, n))| <= |source| <= Utf8Length(source)
  {
    JoinSlices(source, size, n);
    Utf8LengthBounds(source);
  }

  /** The loader's answer to the next slice of an undisturbed push. */
  lemma PushChunkStep(digest: Digest, s: Loader, source: Str, size: nat, n: nat, total: nat, sha256: string,
                      buildId: string)
    requires n < total && s.allowed
    requires s.buffer == Some(PushedBuffer(source, size, n, total, Utf8Length(source), sha256, buildId))
    ensures Step(digest, s, ChunkPart(n, Some(Slice(source, size, n)))).0 ==
      s.(buffer := Some(PushedBuffer(source, size, n + 1, total, Utf8Length(source), sha256, buildId)))
  {
    NextPushed(source, size, n, total);
    PushWithinBudget(source, size, n + 1);
    StoreStep(digest, s, PushedBuffer(source, size, n, total, Utf8Length(source), sha256, buildId), n,
      Slice(source, size, n));
  }

  lemma StoreStep(digest: Digest, s: Loader, b: Buffer, n: nat, data: Str)
    requires s.allowed && s.buffer == Some(b) && n < |b.chunks| && b.chunks[n].None?
    requires b.bytes + |data| <= b.byteLength * 4
    ensures Step(digest, s, ChunkPart(n, Some(data))).0 ==
      s.(buffer := Some(b.(chunks := b.chunks[n := Some(data)], received := b.received + 1, bytes := b.bytes + |data|)))
  {
  }

  lemma NextPushed(source: Str, size: nat, n: nat, total: nat)
    requires n < total
    ensures PushedChunks(source, size, n, total)[n := Some(Slice(source, size, n))] ==
      PushedChunks(source, size, n + 1, total)
    ensures |Join(Slices(source, size, n + 1))| == |Join(Slices(source, size, n))| + |Slice(source, size, n)|
  {
    SliceNext(source, size, n);
  }

  /** The loader's answer to the commit of a complete push. */
  lemma PushCommitStep(digest: Digest, s: Loader, source: Str, size: nat, total: nat, sha256: string, buildId: string)
    requires s.allowed && size > 0 && total >= CeilDiv(|source|, size)
    requires s.buffer == Some(PushedBuffer(source, size, total, total, Utf8Length(source), sha256, buildId))
    ensures Step(digest, s, Commit).0 ==
      s.(buffer := None, checking := s.checking + [Bundle(source, Utf8Length(source), sha256)])
  {
    JoinPrefix(source, size, total, total);
    SlicesRebuild(source, size, total);
    CommitStep(digest, s, PushedBuffer(source, size, total, total, Utf8Length(source), sha256, buildId), source);
  }

  lemma CommitStep(digest: Digest, s: Loader, b: Buffer, source: Str)
    requires s.allowed && s.buffer == Some(b) && b.received == |b.chunks|
    requires JoinChunks(b.chunks) == source && Utf8Length(source) == b.byteLength
    ensures Step(digest, s, Commit).0 ==
      s.(buffer := None, checking := s.checking + [Bundle(source, b.byteLength, b.sha256)])
  {
  }

  lemma PushBeginStep(digest: Digest, s: Loader, source: Str, size: nat, total: nat, sha256: string, buildId: string)
    ensures var r := Step(digest, s, Begin(total, Utf8Length(source), sha256, buildId));
      && (s.allowed && ValidBegin(total, Utf8Length(source), sha256, buildId) ==>
            r == (s.(buffer := Some(PushedBuffer(source, size, 0, total, Utf8Length(source), sha256, buildId))), Ready))
      && (!(s.allowed && ValidBegin(total, Utf8Length(source), sha256, buildId)) ==> r == (s, Rejected))
  {
    assert Blank(total) == PushedChunks(source, size, 0, total);
    assert Slices(source, size, 0) == [];
  }

  function PushCount(length: nat, chunkBytes: nat): nat {
    Max(1, CeilDiv(length, Max(MIN_CHUNK_BYTES, chunkBytes)))
  }

  /** When the loader takes a push as far as the digest check. */
  predicate PushAccepted(allowed: bool, source: Str, chunkBytes: nat, sha256: string, buildId: string) {
    allowed && source != [] && PushCount(|source|, chunkBytes) <= MAX_CHUNKS && HexDigest(sha256) && buildId != ""
  }

  lemma SourceEmptyIff(source: Str)
    ensures Utf8Length(source) >= 1 <==> source != []
  {
    Utf8LengthBounds(source);
  }

  /** What becomes of one call over the bridge. A call that times out, or whose client is
      lost, may have reached the loader before; its caller sees a failure either way. */
  datatype Fate = Answered | Unanswered | Undelivered

  /** The calls of a push in order: begin, the chunks, commit. */
  type Fates = nat -> Fate

  predicate AllAnswered(fates: Fates, n: nat) {
    forall k: nat :: k < n ==> fates(k) == Answered
  }

  /** How many of the first n calls reach the loader: the push stops at the first one that
      is not answered. */
  function Delivered(fates: Fates, n: nat): nat {
    if n == 0 then 0
    else Delivered(fates, n - 1) + if AllAnswered(fates, n - 1) && fates(n - 1) != Undelivered then 1 else 0
  }

  lemma {:induction false} DeliveredWhileAnswered(fates: Fates, n: nat)
    requires AllAnswered(fates, n)
    ensures Delivered(fates, n) == n
  {
    if n > 0 {
      DeliveredWhileAnswered(fates, n - 1);
    }
  }

  lemma {:induction false} DeliveredAfterFailure(fates: Fates, k: nat, n: nat)
    requires k < n && AllAnswered(fates, k) && fates(k) != Answered
    ensures Delivered(fates, n) == if fates(k) == Undelivered then k else k + 1
    decreases n
  {
    if n == k + 1 {
      DeliveredWhileAnswered(fates, k);
    } else {
      DeliveredAfterFailure(fates, k, n - 1);
      assert !AllAnswered(fates, n - 1);
    }
  }

  function ChunkBytes(chunkBytes: nat): nat {
    Max(MIN_CHUNK_BYTES, chunkBytes)
  }

  /** The loader once the first d calls of an accepted push have reached it. */
  ghost function AfterCalls(s: Loader, d: nat, source: Str, sha256: string, buildId: string, chunkBytes: nat): Loader {
    var size, total := ChunkBytes(chunkBytes), PushCount(|source|, chunkBytes);
    if d == 0 then s
    else if d <= total + 1 then
      s.(buffer := Some(PushedBuffer(source, size, d - 1, total, Utf8Length(source), sha256, buildId)))
    else s.(buffer := None, checking := s.checking + [Bundle(source, Utf8Length(source), sha256)])
  }

  /** The commit call reaches the loader and passes the checks before the digest. */
  predicate CommitTaken(allowed: bool, source: Str, sha256: string, buildId: string, chunkBytes: nat, fates: Fates) {
    && PushAccepted(allowed, source, chunkBytes, sha256, buildId)
    && AllAnswered(fates, PushCount(|source|, chunkBytes) + 1)
    && fates(PushCount(|source|, chunkBytes) + 1) != Undelivered
  }

  lemma ReachedCommit(source: Str, chunkBytes: nat, fates: Fates)
    ensures var n := PushCount(|source|, chunkBytes) + 2;
      Delivered(fates, n) == n <==> AllAnswered(fates, n - 1) && fates(n - 1) != Undelivered
    ensures Delivered(fates, PushCount(|source|, chunkBytes) + 2) <= PushCount(|source|, chunkBytes) + 2
  {
    var n := PushCount(|source|, chunkBytes) + 2;
    DeliveredAtMost(fates, n - 1);
    if AllAnswered(fates, n - 1) {
      DeliveredWhileAnswered(fates, n - 1);
    }
  }

  lemma {:induction false} DeliveredAtMost(fates: Fates, n: nat)
    ensures Delivered(fates, n) <= n
  {
    if n > 0 {
      DeliveredAtMost(fates, n - 1);
    }
  }

  lemma AfterNextChunk(digest: Digest, start: Loader, index: nat, source: Str, sha256: string, buildId: string,
                       chunkBytes: nat)
    requires start.allowed && index < PushCount(|source|, chunkBytes)
    ensures Step(digest, AfterCalls(start, index + 1, source, sha256, buildId, chunkBytes),
                 ChunkPart(index, Some(Slice(source, ChunkBytes(chunkBytes), index)))).0
         == AfterCalls(start, index + 2, source, sha256, buildId, chunkBytes)
  {
    PushChunkStep(digest, AfterCalls(start, index + 1, source, sha256, buildId, chunkBytes), source,
      ChunkBytes(chunkBytes),
      index, PushCount(|source|, chunkBytes), sha256, buildId);
  }

  lemma AfterCommit(digest: Digest, start: Loader, source: Str, sha256: string, buildId: string, chunkBytes: nat)
    requires start.allowed
    ensures var n := PushCount(|source|, chunkBytes) + 2;
      Step(digest, AfterCalls(start, n - 1, source, sha256, buildId, chunkBytes), Commit).0
        == AfterCalls(start, n, source, sha256, buildId, chunkBytes)
  {
    var total := PushCount(|source|, chunkBytes);
    PushCommitStep(digest, AfterCalls(start, total + 1, source, sha256, buildId, chunkBytes), source,
      ChunkBytes(chunkBytes),
      total, sha256, buildId);
  }

  /** The chunks in order, up to the first call that is not answered. */
  method SendChunks(loader: HotSwapLoader, ghost start: Loader, source: Str, sha256: string, buildId: string,
                    chunkBytes: nat, fates: Fates) returns (sent: bool)
    requires start.allowed && AllAnswered(fates, 1)
    requires loader.State() == AfterCalls(start, 1, source, sha256, buildId, chunkBytes)
    modifies loader
    ensures sent == AllAnswered(fates, PushCount(|source|, chunkBytes) + 1)
    ensures loader.State() ==
      AfterCalls(start, Delivered(fates, PushCount(|source|, chunkBytes) + 1), source, sha256, buildId, chunkBytes)
  {
    var totalChunks := PushCount(|source|, chunkBytes);
    for index := 0 to totalChunks
      invariant AllAnswered(fates, index + 1)
      invariant loader.State() == AfterCalls(start, index + 1, source, sha256, buildId, chunkBytes)
    {
      if fates(index + 1) == Undelivered {
        DeliveredAfterFailure(fates, index + 1, totalChunks + 1);
        return false;
      }
      AfterNextChunk(loader.digest, start, index, source, sha256, buildId, chunkBytes);
      var reply := loader.HandleChunk(index, Some(Slice(source, ChunkBytes(chunkBytes), index)));
      if fates(index + 1) == Unanswered {
        DeliveredAfterFailure(fates, index + 1, totalChunks + 1);
        return false;
      }
    }
    DeliveredWhileAnswered(fates, totalChunks + 1);
    sent := true;
  }

  lemma AfterBegin(digest: Digest, start: Loader, source: Str, sha256: string, buildId: string, chunkBytes: nat)
    ensures var begin := Begin(PushCount(|source|, chunkBytes), Utf8Length(source), sha256, buildId);
      Step(digest, start, begin) ==
        if PushAccepted(start.allowed, source, chunkBytes, sha256, buildId)
        then (AfterCalls(start, 1, source, sha256, buildId, chunkBytes), Ready) else (start, Rejected)
  {
    SourceEmptyIff(source);
    PushBeginStep(digest, start, source, ChunkBytes(chunkBytes), PushCount(|source|, chunkBytes), sha256, buildId);
  }

  /** Drives begin, every chunk in order, then commit, as far as the commit's digest check.
      Stops at the first call that is refused or not answered. */
  method PushDispatcher(loader: HotSwapLoader, source: Str, sha256: string, buildId: string, chunkBytes: nat,
                        fates: Fates)
    returns (committed: bool)
    modifies loader
    ensures committed == CommitTaken(old(loader.allowed), source, sha256, buildId, chunkBytes, fates)
    ensures var n := PushCount(|source|, chunkBytes) + 2;
      loader.State() ==
        if PushAccepted(old(loader.allowed), source, chunkBytes, sha256, buildId)
        then AfterCalls(old(loader.State()), Delivered(fates, n), source, sha256, buildId, chunkBytes)
        else old(loader.State())
  {
    ghost var start := loader.State();
    var totalChunks := PushCount(|source|, chunkBytes);
    if fates(0) == Undelivered {
      DeliveredAfterFailure(fates, 0, totalChunks + 2);
      return false;
    }
    AfterBegin(loader.digest, start, source, sha256, buildId, chunkBytes);
    var reply := loader.HandleBegin(totalChunks, Utf8Length(source), sha256, buildId);
    if reply == Rejected {
      return false;
    }
    if fates(0) == Unanswered {
      DeliveredAfterFailure(fates, 0, totalChunks + 2);
      return false;
    }
    var sent := SendChunks(loader, start, source, sha256, buildId, chunkBytes, fates);
    if !sent {
      return false;
    }
    DeliveredWhileAnswered(fates, totalChunks + 1);
    if fates(totalChunks + 1) == Undelivered {
      return false;
    }
    AfterCommit(loader.digest, start, source, sha256, buildId, chunkBytes);
    reply := loader.HandleCommit();
    committed := true;
  }

  /** The new dispatcher becomes active: whether the commit's reply arrives plays no part. */
  predicate Swaps(digest: Digest, allowed: bool, source: Str, sha256: string, buildId: string, chunkBytes: nat,
                  fates: Fates, valid: bool)
  {
    CommitTaken(allowed, source, sha256, buildId, chunkBytes, fates) && digest(source) == sha256 && valid
  }

  /** The push returns without an error. */
  predicate Succeeds(digest: Digest, allowed: bool, source: Str, sha256: string, buildId: string, chunkBytes: nat,
                     fates: Fates, valid: bool, reported: string)
  {
    && Swaps(digest, allowed, source, sha256, buildId, chunkBytes, fates, valid)
    && fates(PushCount(|source|, chunkBytes) + 1) == Answered && reported == buildId
  }

  function Last<T>(s: seq<T>): T
    requires s != []
  {
    s[|s| - 1]
  }

  lemma LastRemoved<T>(s: seq<T>, x: T)
    ensures Without(s + [x], |s|) == s
  {
  }

  /** The rest of the commit, for the bundle that came in last. */
  method FinishLast(loader: HotSwapLoader, source: Str, sha256: string, valid: bool) returns (swapped: bool)
    requires loader.checking != [] && Last(loader.checking) == Bundle(source, Utf8Length(source), sha256)
    modifies loader
    ensures swapped == (loader.digest(source) == sha256 && valid)
    ensures loader.active == if swapped then Pushed(source) else old(loader.active)
    ensures loader.checking == old(loader.checking[..|loader.checking| - 1]) && loader.running == old(loader.running)
  {
    var reply := loader.OnDigest(|loader.checking| - 1);
    if reply == Rejected {
      return false;
    }
    LastRemoved(old(loader.running), Bundle(source, Utf8Length(source), sha256));
    reply := loader.OnEvaluated(|loader.running| - 1, valid);
    swapped := reply == Swapped;
  }

  /** Main result for the push: the pushed source becomes active exactly when the commit is
      taken, its digest is the announced one and it evaluates to a valid dispatcher. The
      push succeeds exactly when, moreover, the commit's reply arrives and reports the
      announced build id. So a failed push has left the old dispatcher exactly when it
      failed before the swap, which its caller cannot tell from the failure. */
  method PushAndFinish(loader: HotSwapLoader, source: Str, sha256: string, buildId: string, chunkBytes: nat,
                       fates: Fates,
                       valid: bool, reported: string) returns (succeeded: bool)
    modifies loader
    ensures succeeded ==
      Succeeds(loader.digest, old(loader.allowed), source, sha256, buildId, chunkBytes, fates, valid, reported)
    ensures loader.active ==
      if Swaps(loader.digest, old(loader.allowed), source, sha256, buildId, chunkBytes, fates, valid)
      then Pushed(source)
      else old(loader.active)
    ensures loader.checking == old(loader.checking) && loader.running == old(loader.running)
  {
    ReachedCommit(source, chunkBytes, fates);
    var committed := PushDispatcher(loader, source, sha256, buildId, chunkBytes, fates);
    if !committed {
      return false;
    }
    var swapped := FinishLast(loader, source, sha256, valid);
    succeeded := swapped && fates(PushCount(|source|, chunkBytes) + 1) == Answered && reported == buildId;
  }

  /** The push's failure says nothing about the swap: with the commit's reply lost the new
      dispatcher is active although the push fails; had the bundle another digest, the push
      would fail in the same call, and the old dispatcher would stay. */
  lemma LostReplySwaps(digest: Digest, other: Digest, source: Str, sha256: string, buildId: string, chunkBytes: nat)
    requires PushAccepted(true, source, chunkBytes, sha256, buildId)
    requires digest(source) == sha256 && other(source) != sha256
    ensures var fates := (k: nat) => if k == PushCount(|source|, chunkBytes) + 1 then Unanswered else Answered;
      && Swaps(digest, true, source, sha256, buildId, chunkBytes, fates, true)
      && !Succeeds(digest, true, source, sha256, buildId, chunkBytes, fates, true, buildId)
      && !Swaps(other, true, source, sha256, buildId, chunkBytes, fates, true)
      && !Succeeds(other, true, source, sha256, buildId, chunkBytes, fates, true, buildId)
  {
  }

  /** A failed push swaps exactly when it fails after the swap: the commit is taken, digest
      and evaluation are good, and its reply is lost or reports another build id. */
  lemma FailedPushSwapsIff(digest: Digest, allowed: bool, source: Str, sha256: string, buildId: string, chunkBytes: nat,
                           fates: Fates, valid: bool, reported: string)
    requires !Succeeds(digest, allowed, source, sha256, buildId, chunkBytes, fates, valid, reported)
    ensures Swaps(digest, allowed, source, sha256, buildId, chunkBytes, fates, valid) <==>
      && Delivered(fates, PushCount(|source|, chunkBytes) + 2) == PushCount(|source|, chunkBytes) + 2
      && PushAccepted(allowed, source, chunkBytes, sha256, buildId) && digest(source) == sha256 && valid
      && (fates(PushCount(|source|, chunkBytes) + 1) == Unanswered || reported != buildId)
  {
    ReachedCommit(source, chunkBytes, fates);
  }
}
