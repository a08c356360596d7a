/** The server side of the bridge: one session with one current client, and the
    table of requests that wait for its responses. Timers, socket callbacks and
    incoming frames are events. */
module BridgeManagers {
  import opened Basics

  type Socket = nat

  datatype Status = Disconnected | Connecting | Connected | Failed

  datatype Pending = Pending(name: string, startedAt: int, timeoutMs: int)

  datatype Cause = Resolved | PeerError | TimedOut | Expired | Replaced | Closed | Shutdown

  datatype Settlement = Settlement(id: nat, cause: Cause)

  /** `timers` are the armed per-request timeouts; `settled` logs every resolve or
      reject call ever made on a request. Of the `armed` reconnect timers the manager
      remembers only the last. */
  datatype Manager = Manager(
    status: Status, ws: Option<Socket>, hello: bool, heartbeat: bool, sweep: bool, listening: bool,
    pending: map<nat, Pending>, timers: set<nat>, issued: nat, settled: seq<Settlement>,
    reconnectTimer: Option<nat>, armed: set<nat>, nextTimer: nat)

  datatype Event =
    | Connect(listens: bool)
    | Handshake(client: Socket, accepted: bool)
    | Call(now: int, name: string, timeoutMs: int)
    | Response(id: nat, ok: bool)
    | TimerFires(id: nat)
    | SweepTick(now: int)
    | HeartbeatTick(silent: bool, sendFails: bool)
    | SocketClosed(socket: Socket)
    | ReconnectFires(timer: nat, listens: bool)
    | Disconnect

  function Initial(): Manager {
    Manager(Disconnected, None, false, false, false, false, map[], {}, 0, [], None, {}, 0)
  }

  /** Settlements, in issue order, of the pending ids up to n that `gone` selects. */
  function SettledUpTo(pending: map<nat, Pending>, gone: Pending -> bool, n: nat, cause: Cause): seq<Settlement> {
    if n == 0 then []
    else SettledUpTo(pending, gone, n - 1, cause) + if n in pending && gone(pending[n]) then [Settlement(n, cause)]
      else []
  }

  /** Clears the timer of every selected request, settles it and drops it. */
  function Settle(m: Manager, gone: Pending -> bool, cause: Cause): Manager {
    m.(pending := map id | id in m.pending && !gone(m.pending[id]) :: m.pending[id],
       timers := m.timers - set id | id in m.pending && gone(m.pending[id]) :: id,
       settled := m.settled + SettledUpTo(m.pending, gone, m.issued, cause))
  }

  /** The waiting requests, and the cleared timers, once ids 1 to n have been visited. */
  function LeftAfter(pending: map<nat, Pending>, gone: Pending -> bool, n: nat): map<nat, Pending> {
    map id | id in pending && !(id <= n && gone(pending[id])) :: pending[id]
  }

  function ClearedAfter(pending: map<nat, Pending>, gone: Pending -> bool, n: nat): set<nat> {
    set id | id in pending && id <= n && gone(pending[id])
  }

  function Visited(m: Manager, gone: Pending -> bool, cause: Cause, n: nat): Manager {
    m.(pending := LeftAfter(m.pending, gone, n), timers := m.timers - ClearedAfter(m.pending, gone, n),
       settled := m.settled + SettledUpTo(m.pending, gone, n, cause))
  }

  lemma EntriesStep(pending: map<nat, Pending>, gone: Pending -> bool, n: nat)
    ensures n + 1 in pending && gone(pending[n + 1]) ==>
      && LeftAfter(pending, gone, n + 1) == LeftAfter(pending, gone, n) - {n + 1}
      && ClearedAfter(pending, gone, n + 1) == ClearedAfter(pending, gone, n) + {n + 1}
    ensures !(n + 1 in pending && gone(pending[n + 1])) ==>
      && LeftAfter(pending, gone, n + 1) == LeftAfter(pending, gone, n)
      && ClearedAfter(pending, gone, n + 1) == ClearedAfter(pending, gone, n)
  {
  }

  lemma DropTwice(timers: set<nat>, cleared: set<nat>, id: nat)
    ensures timers - (cleared + {id}) == timers - cleared - {id}
  {
  }

  lemma VisitStep(pending: map<nat, Pending>, timers: set<nat>, settled: seq<Settlement>,
                  gone: Pending -> bool, cause: Cause, n: nat)
    ensures n + 1 in pending && gone(pending[n + 1]) ==>
      && timers - ClearedAfter(pending, gone, n + 1) == timers - ClearedAfter(pending, gone, n) - {n + 1}
      && settled + SettledUpTo(pending, gone, n + 1, cause) ==
           settled + SettledUpTo(pending, gone, n, cause) + [Settlement(n + 1, cause)]
    ensures !(n + 1 in pending && gone(pending[n + 1])) ==>
      && timers - ClearedAfter(pending, gone, n + 1) == timers - ClearedAfter(pending, gone, n)
      && settled + SettledUpTo(pending, gone, n + 1, cause) == settled + SettledUpTo(pending, gone, n, cause)
  {
    EntriesStep(pending, gone, n);
    DropTwice(timers, ClearedAfter(pending, gone, n), n + 1);
    var log := SettledUpTo(pending, gone, n, cause);
    assert settled + (log + [Settlement(n + 1, cause)]) == settled + log + [Settlement(n + 1, cause)];
    assert log + [] == log;
  }

  lemma VisitNone(m: Manager, gone: Pending -> bool, cause: Cause)
    requires forall id :: id in m.pending ==> 1 <= id
    ensures LeftAfter(m.pending, gone, 0) == m.pending && ClearedAfter(m.pending, gone, 0) == {}
    ensures m.timers - ClearedAfter(m.pending, gone, 0) == m.timers
    ensures m.settled + SettledUpTo(m.pending, gone, 0, cause) == m.settled
  {
  }

  lemma VisitAll(m: Manager, gone: Pending -> bool, cause: Cause)
    requires forall id :: id in m.pending ==> 1 <= id <= m.issued
    ensures Visited(m, gone, cause, m.issued) == Settle(m, gone, cause)
  {
    assert Settle(m, gone, cause).pending == LeftAfter(m.pending, gone, m.issued);
    assert Settle(m, gone, cause).timers == m.timers - ClearedAfter(m.pending, gone, m.issued);
  }

  function RejectAll(m: Manager, cause: Cause): Manager {
    Settle(m, Any(), cause)
  }

  function SettleOne(m: Manager, id: nat, cause: Cause): Manager {
    m.(pending := m.pending - {id}, timers := m.timers - {id}, settled := m.settled + [Settlement(id, cause)])
  }

  /** What the stale sweep removes: the request's own timeout plays no part. */
  function Overdue(now: int, limit: int): Pending -> bool {
    (p: Pending) => now - p.startedAt >= limit
  }

  function Any(): Pending -> bool {
    (_: Pending) => true
  }

  function Remembered(m: Manager): set<nat> {
    if m.reconnectTimer.Some? then {m.reconnectTimer.value} else {}
  }

  function ClearReconnect(m: Manager): Manager {
    m.(armed := m.armed - Remembered(m), reconnectTimer := None)
  }

  /** An earlier timer is forgotten, not cleared. */
  function ScheduleReconnect(m: Manager): Manager {
    if m.status == Disconnected then m
    else m.(reconnectTimer := Some(m.nextTimer), armed := m.armed + {m.nextTimer}, nextTimer := m.nextTimer + 1)
  }

  function TryConnect(m: Manager, listens: bool): Manager {
    if m.status == Connected || m.status == Connecting then m
    else if listens then m.(status := Connecting, listening := true)
    else m.(status := Failed, listening := false)
  }

  function Fire(m: Manager, timer: nat, listens: bool): Manager {
    var tried := TryConnect(m.(armed := m.armed - {timer}), listens);
    if tried.status == Failed then ScheduleReconnect(tried) else tried
  }

  function Offline(m: Manager): Manager {
    ClearReconnect(m.(status := Disconnected, heartbeat := false, sweep := false))
  }

  function Stop(m: Manager): Manager {
    RejectAll(Offline(m), Shutdown).(ws := None, listening := false, hello := false)
  }

  function Lost(m: Manager): Manager {
    m.(ws := None, status := Connecting, hello := false, heartbeat := false, sweep := false)
  }

  /** The manager after one event; `limit` is the configured request timeout. */
  function Step(limit: int, m: Manager, e: Event): Manager {
    match e
    case Connect(listens) => TryConnect(m, listens)
    case Handshake(client, accepted) =>
      if !accepted then m
      else
        var cleared :=
          if m.ws.Some? && m.ws.value != client then RejectAll(m, Replaced).(heartbeat := false, sweep := false) else m;
        cleared.(ws := Some(client), status := Connected, hello := true, heartbeat := true, sweep := true)
    case Call(now, name, timeoutMs) =>
      if m.status != Connected || m.ws.None? then m
      else
        var id := m.issued + 1;
        m.(issued := id, pending := m.pending[id := Pending(name, now, timeoutMs)], timers := m.timers + {id})
    case Response(id, ok) => if id in m.pending then SettleOne(m, id, if ok then Resolved else PeerError) else m
    case TimerFires(id) => if id in m.timers then SettleOne(m, id, TimedOut) else m
    case SweepTick(now) => if m.sweep then Settle(m, Overdue(now, limit), Expired) else m
    case HeartbeatTick(silent, sendFails) =>
      if !m.heartbeat || m.ws.None? || m.status != Connected || silent || !sendFails then m else Stop(m)
    case SocketClosed(socket) => if m.ws != Some(socket) then m else ScheduleReconnect(RejectAll(Lost(m), Closed))
    case ReconnectFires(timer, listens) => if timer in m.armed then Fire(m, timer, listens) else m
    case Disconnect => Stop(m)
  }

  class BridgeManager {
    var status: Status
    var ws: Option<Socket>
    var hello: bool
    var heartbeat: bool
    var sweep: bool
    var listening: bool
    var pending: map<nat, Pending>
    var timers: set<nat>
    var issued: nat
    var settled: seq<Settlement>
    var reconnectTimer: Option<nat>
    var armed: set<nat>
    var nextTimer: nat
    const limit: int

    constructor (limit: int)
      ensures Valid() && State() == Initial() && this.limit == limit
    {
      status, ws, hello, heartbeat, sweep, listening := Disconnected, None, false, false, false, false;
      pending, timers, issued, settled := map[], {}, 0, [];
      reconnectTimer, armed, nextTimer := None, {}, 0;
      this.limit := limit;
    }

    ghost function State(): Manager
      reads this
    {
      Manager(status, ws, hello, heartbeat, sweep, listening, pending, timers, issued, settled,
        reconnectTimer, armed, nextTimer)
    }

    method HandleConnect(listens: bool)
      requires Valid()
      modifies this
      ensures Valid() && State() == TryConnect(old(State()), listens)
    {
      if status == Connected || status == Connecting {
        return;
      }
      status := Connecting;
      listening := listens;
      if !listens {
        status := Failed;
      }
    }

    ghost predicate Valid()
      reads this
    {
      forall id :: id in pending ==> 1 <= id <= issued
    }

    /** The loop of rejectPending and of the stale sweep, over the ids in issue order. */
    method SettleWhere(gone: Pending -> bool, cause: Cause)
      requires Valid()
      modifies this`pending, this`timers, this`settled
      ensures Valid() && State() == Settle(old(State()), gone, cause)
    {
      ghost var start := State();
      var entries := pending;
      VisitNone(start, gone, cause);
      for id := 1 to issued + 1
        invariant pending == LeftAfter(entries, gone, id - 1)
        invariant timers == old(timers) - ClearedAfter(entries, gone, id - 1)
        invariant settled == old(settled) + SettledUpTo(entries, gone, id - 1, cause)
      {
        EntriesStep(entries, gone, id - 1);
        VisitStep(entries, old(timers), old(settled), gone, cause, id - 1);
        if id in entries && gone(entries[id]) {
          timers := timers - {id};
          settled := settled + [Settlement(id, cause)];
          pending := pending - {id};
        }
      }
      VisitAll(start, gone, cause);
      assert State() == Visited(start, gone, cause, issued);
    }

    method HandleHandshake(client: Socket, accepted: bool)
      requires Valid()
      modifies this
      ensures Valid() && State() == Step(limit, old(State()), Handshake(client, accepted))
    {
      if !accepted {
        return;
      }
      if ws.Some? && ws.value != client {
        SettleWhere(Any(), Replaced);
        heartbeat := false;
        sweep := false;
      }
      ws := Some(client);
      status := Connected;
      hello := true;
      heartbeat := true;
      sweep := true;
    }

    method HandleCall(now: int, name: string, timeoutMs: int) returns (id: Option<nat>)
      requires Valid()
      modifies this
      ensures Valid() && State() == Step(limit, old(State()), Call(now, name, timeoutMs))
      ensures id == if old(status) == Connected && old(ws).Some? then Some(issued) else None
    {
      if status != Connected || ws.None? {
        return None;
      }
      issued := issued + 1;
      timers := timers + {issued};
      pending := pending[issued := Pending(name, now, timeoutMs)];
      id := Some(issued);
    }

    method HandleResponse(id: nat, ok: bool)
      requires Valid()
      modifies this
      ensures Valid() && State() == Step(limit, old(State()), Response(id, ok))
    {
      if id !in pending {
        return;
      }
      timers := timers - {id};
      pending := pending - {id};
      settled := settled + [Settlement(id, if ok then Resolved else PeerError)];
    }

    method OnTimer(id: nat)
      requires Valid() && id in timers
      modifies this
      ensures Valid() && State() == Step(limit, old(State()), TimerFires(id))
    {
      timers := timers - {id};
      pending := pending - {id};
      settled := settled + [Settlement(id, TimedOut)];
    }

    method OnSweep(now: int)
      requires Valid()
      modifies this
      ensures Valid() && State() == Step(limit, old(State()), SweepTick(now))
    {
      if sweep {
        SettleWhere(Overdue(now, limit), Expired);
      }
    }

    method OnHeartbeat(silent: bool, sendFails: bool)
      requires Valid()
      modifies this
      ensures Valid() && State() == Step(limit, old(State()), HeartbeatTick(silent, sendFails))
    {
      if !heartbeat || ws.None? || status != Connected || silent {
        return;
      }
      if sendFails {
        HandleDisconnect();
      }
    }

    method OnSocketClosed(socket: Socket)
      requires Valid()
      modifies this
      ensures Valid() && State() == Step(limit, old(State()), SocketClosed(socket))
    {
      if ws != Some(socket) {
        return;
      }
      ws := None;
      status := Connecting;
      hello := false;
      sweep := false;
      heartbeat := false;
      assert State() == Lost(old(State()));
      SettleWhere(Any(), Closed);
      assert State() == RejectAll(Lost(old(State())), Closed);
      ArmReconnect();
    }

    method ArmReconnect()
      requires Valid()
      modifies this
      ensures Valid() && State() == ScheduleReconnect(old(State()))
    {
      if status == Disconnected {
        return;
      }
      reconnectTimer := Some(nextTimer);
      armed := armed + {nextTimer};
      nextTimer := nextTimer + 1;
    }

    method OnReconnectTimer(timer: nat, listens: bool)
      requires Valid() && timer in armed
      modifies this
      ensures Valid() && State() == Step(limit, old(State()), ReconnectFires(timer, listens))
    {
      armed := armed - {timer};
      HandleConnect(listens);
      if status == Failed {
        ArmReconnect();
      }
    }

    method ClearReconnectTimer()
      modifies this`armed, this`reconnectTimer
      ensures armed == old(armed) - Remembered(old(State())) && reconnectTimer.None?
    {
      if reconnectTimer.Some? {
        armed := armed - {reconnectTimer.value};
        reconnectTimer := None;
      }
    }

    method HandleDisconnect()
      requires Valid()
      modifies this
      ensures Valid() && State() == Stop(old(State()))
    {
      status := Disconnected;
      heartbeat := false;
      sweep := false;
      ClearReconnectTimer();
      assert State() == Offline(old(State()));
      SettleWhere(Any(), Shutdown);
      assert State() == RejectAll(Offline(old(State())), Shutdown);
      ws := None;
      listening := false;
      hello := false;
    }
  }

  // ----- invariants over every run -----

  ghost predicate IsSettled(settled: seq<Settlement>, id: nat) {
    exists i :: 0 <= i < |settled| && settled[i].id == id
  }

  ghost predicate SettledOnce(settled: seq<Settlement>) {
    forall i, j :: 0 <= i < j < |settled| ==> settled[i].id != settled[j].id
  }

  /** Session part: `Connected` goes with a current socket, a hello and both
      interval timers, and without a connection nothing is waiting. */
  ghost predicate SessionInv(m: Manager) {
    && (m.status == Connected <==> m.ws.Some?)
    && (m.status == Connected <==> m.hello)
    && (m.status == Connected <==> m.heartbeat)
    && (m.status == Connected <==> m.sweep)
    && (m.status != Connected ==> m.pending == map[])
  }

  /** Request part: waiting means issued and not yet settled, each waiting request
      has its timer armed, and nothing is settled twice. */
  ghost predicate RequestInv(m: Manager) {
    && m.timers == m.pending.Keys
    && SettledOnce(m.settled)
    && (forall id :: id in m.pending <==> 1 <= id <= m.issued && !IsSettled(m.settled, id))
    && (forall i :: 0 <= i < |m.settled| ==> 1 <= m.settled[i].id <= m.issued)
  }

  ghost predicate Selected(x: Settlement, pending: map<nat, Pending>, gone: Pending -> bool, n: nat, cause: Cause) {
    1 <= x.id <= n && x.id in pending && gone(pending[x.id]) && x.cause == cause
  }

  lemma {:induction false} SettledUpToOnly(pending: map<nat, Pending>, gone: Pending -> bool, n: nat, cause: Cause)
    ensures forall x :: x in SettledUpTo(pending, gone, n, cause) ==> Selected(x, pending, gone, n, cause)
  {
    if n > 0 {
      SettledUpToOnly(pending, gone, n - 1, cause);
    }
  }

  lemma {:induction false} SettledUpToOnce(pending: map<nat, Pending>, gone: Pending -> bool, n: nat, cause: Cause)
    ensures SettledOnce(SettledUpTo(pending, gone, n, cause))
  {
    if n > 0 {
      var before := SettledUpTo(pending, gone, n - 1, cause);
      SettledUpToOnce(pending, gone, n - 1, cause);
      SettledUpToOnly(pending, gone, n - 1, cause);
      forall i | 0 <= i < |before| ensures before[i].id < n {
        assert before[i] in before;
      }
    }
  }

  lemma {:induction false} SettledUpToLists(pending: map<nat, Pending>, gone: Pending -> bool, n: nat, cause: Cause,
                                            id: nat)
    requires 1 <= id <= n && id in pending && gone(pending[id])
    ensures IsSettled(SettledUpTo(pending, gone, n, cause), id)
  {
    var before := SettledUpTo(pending, gone, n - 1, cause);
    if id < n {
      SettledUpToLists(pending, gone, n - 1, cause, id);
      SettledAppend(before, SettledUpTo(pending, gone, n, cause)[|before|..], id);
    } else {
      assert SettledUpTo(pending, gone, n, cause)[|before|].id == n;
    }
  }

  lemma SettledAppend(a: seq<Settlement>, b: seq<Settlement>, id: nat)
    ensures IsSettled(a + b, id) <==> IsSettled(a, id) || IsSettled(b, id)
  {
    if IsSettled(a, id) {
      var i :| 0 <= i < |a| && a[i].id == id;
      assert (a + b)[i] == a[i];
    }
    if IsSettled(b, id) {
      var i :| 0 <= i < |b| && b[i].id == id;
      assert (a + b)[|a| + i] == b[i];
    }
  }

  /** The log after settling a selection. */
  lemma SettledAfter(m: Manager, gone: Pending -> bool, cause: Cause, id: nat)
    requires RequestInv(m)
    ensures IsSettled(Settle(m, gone, cause).settled, id) <==>
      IsSettled(m.settled, id) || (id in m.pending && gone(m.pending[id]))
  {
    var log := SettledUpTo(m.pending, gone, m.issued, cause);
    SettledAppend(m.settled, log, id);
    SettledUpToOnly(m.pending, gone, m.issued, cause);
    if IsSettled(log, id) {
      var i :| 0 <= i < |log| && log[i].id == id;
      assert log[i] in log;
    }
    if id in m.pending && gone(m.pending[id]) {
      SettledUpToLists(m.pending, gone, m.issued, cause, id);
    }
  }

  lemma AppendOnce(a: seq<Settlement>, b: seq<Settlement>)
    requires SettledOnce(a) && SettledOnce(b) && forall x :: x in b ==> !IsSettled(a, x.id)
    ensures SettledOnce(a + b)
  {
    forall i, j | 0 <= i < j < |a + b| ensures (a + b)[i].id != (a + b)[j].id {
      if i < |a| <= j {
        assert b[j - |a|] in b;
      }
    }
  }

  /** Settling any selection of the waiting requests keeps the table exact. */
  lemma SettleKeepsRequests(m: Manager, gone: Pending -> bool, cause: Cause)
    requires RequestInv(m)
    ensures RequestInv(Settle(m, gone, cause))
  {
    var t := Settle(m, gone, cause);
    var log := SettledUpTo(m.pending, gone, m.issued, cause);
    SettledUpToOnly(m.pending, gone, m.issued, cause);
    SettledUpToOnce(m.pending, gone, m.issued, cause);
    AppendOnce(m.settled, log);
    forall id ensures IsSettled(t.settled, id) <==>
      IsSettled(m.settled, id) || (id in m.pending && gone(m.pending[id])) {
      SettledAfter(m, gone, cause, id);
    }
    forall i | 0 <= i < |t.settled| ensures 1 <= t.settled[i].id <= m.issued {
      assert i >= |m.settled| ==> t.settled[i] in log;
    }
  }

  lemma SettleOneKeepsRequests(m: Manager, id: nat, cause: Cause)
    requires RequestInv(m) && id in m.pending
    ensures RequestInv(SettleOne(m, id, cause))
  {
    var t := SettleOne(m, id, cause);
    forall k ensures IsSettled(t.settled, k) <==> IsSettled(m.settled, k) || k == id {
      SettledAppend(m.settled, [Settlement(id, cause)], k);
      assert [Settlement(id, cause)][0].id == id;
    }
    forall i, j | 0 <= i < j < |t.settled| ensures t.settled[i].id != t.settled[j].id {
      if j == |m.settled| {
        assert IsSettled(m.settled, m.settled[i].id);
      }
    }
  }

  lemma HandshakeKeepsRequests(limit: int, m: Manager, client: Socket, accepted: bool)
    requires RequestInv(m)
    ensures RequestInv(Step(limit, m, Handshake(client, accepted)))
  {
    SettleKeepsRequests(m, Any(), Replaced);
  }

  lemma CallKeepsRequests(limit: int, m: Manager, now: int, name: string, timeoutMs: int)
    requires RequestInv(m)
    ensures RequestInv(Step(limit, m, Call(now, name, timeoutMs)))
  {
    assert forall i :: 0 <= i < |m.settled| ==> m.settled[i].id != m.issued + 1;
  }

  lemma CloseKeepsRequests(limit: int, m: Manager, socket: Socket)
    requires RequestInv(m)
    ensures RequestInv(Step(limit, m, SocketClosed(socket)))
  {
    SettleKeepsRequests(Lost(m), Any(), Closed);
  }

  lemma FireKeepsRequests(m: Manager, timer: nat, listens: bool)
    requires RequestInv(m)
    ensures RequestInv(Fire(m, timer, listens))
  {
  }

  lemma StepKeepsRequests(limit: int, m: Manager, e: Event)
    requires RequestInv(m)
    ensures RequestInv(Step(limit, m, e))
  {
    match e
    case Connect(_) =>
    case Handshake(client, accepted) => HandshakeKeepsRequests(limit, m, client, accepted);
    case Call(now, name, timeoutMs) => CallKeepsRequests(limit, m, now, name, timeoutMs);
    case Response(id, ok) => if id in m.pending { SettleOneKeepsRequests(m, id, if ok then Resolved else PeerError); }
    case TimerFires(id) => if id in m.timers { SettleOneKeepsRequests(m, id, TimedOut); }
    case SweepTick(now) => SettleKeepsRequests(m, Overdue(now, limit), Expired);
    case HeartbeatTick(_, _) => StopKeepsRequests(m);
    case SocketClosed(socket) => CloseKeepsRequests(limit, m, socket);
    case ReconnectFires(timer, listens) => FireKeepsRequests(m, timer, listens);
    case Disconnect => StopKeepsRequests(m);
  }

  lemma StopKeepsRequests(m: Manager)
    requires RequestInv(m)
    ensures RequestInv(Stop(m))
  {
    SettleKeepsRequests(Offline(m), Any(), Shutdown);
  }

  lemma StepKeepsSession(limit: int, m: Manager, e: Event)
    requires SessionInv(m)
    ensures SessionInv(Step(limit, m, e))
  {
  }

  function Run(limit: int, m: Manager, events: seq<Event>): Manager {
    if events == [] then m else Step(limit, Run(limit, m, events[..|events| - 1]), events[|events| - 1])
  }

  function StateAfter(limit: int, events: seq<Event>): Manager {
    Run(limit, Initial(), events)
  }

  /** Main result: after any run of connects, handshakes, calls, responses, timers,
      sweeps, heartbeats, closes and disconnects both invariants hold, and no request
      outlives its connection. */
  lemma {:induction false} ReachableInv(limit: int, events: seq<Event>)
    ensures SessionInv(StateAfter(limit, events)) && RequestInv(StateAfter(limit, events))
    ensures var m := StateAfter(limit, events);
      m.status != Connected ==> forall id :: 1 <= id <= m.issued ==> IsSettled(m.settled, id)
  {
    if events != [] {
      var n := |events| - 1;
      ReachableInv(limit, events[..n]);
      StepKeepsRequests(limit, StateAfter(limit, events[..n]), events[n]);
      StepKeepsSession(limit, StateAfter(limit, events[..n]), events[n]);
    }
  }

  /** Late responses and late timers change nothing. */
  lemma LateEventsChangeNothing(limit: int, events: seq<Event>, id: nat, ok: bool)
    requires IsSettled(StateAfter(limit, events).settled, id)
    ensures var m := StateAfter(limit, events);
      Step(limit, m, Response(id, ok)) == m && Step(limit, m, TimerFires(id)) == m
  {
    ReachableInv(limit, events);
  }

  /** A handshake by a new client leaves the old client's requests settled and none waiting. */
  lemma NewClientEmptiesTable(limit: int, events: seq<Event>, client: Socket)
    requires StateAfter(limit, events).ws != Some(client)
    ensures var m := StateAfter(limit, events);
      var t := Step(limit, m, Handshake(client, true));
      && t.ws == Some(client) && t.pending == map[] && t.timers == {}
      && forall id :: id in m.pending ==> IsSettled(t.settled, id)
  {
    var m := StateAfter(limit, events);
    ReachableInv(limit, events);
    StepKeepsRequests(limit, m, Handshake(client, true));
    var t := Step(limit, m, Handshake(client, true));
    assert t.pending == map[];
    assert t.issued == m.issued;
  }

  /** A sweep at that time drops the request, although its own timeout has not passed. */
  predicate SweptEarly(limit: int, m: Manager, id: nat, now: int)
    requires id in m.pending
  {
    && now - m.pending[id].startedAt < m.pending[id].timeoutMs
    && id !in Step(limit, m, SweepTick(now)).pending
  }

  /** A waiting request can be swept before its own timeout has passed exactly when
      that timeout exceeds the configured limit. */
  lemma SweptEarlyIff(limit: int, m: Manager, id: nat)
    requires m.sweep && id in m.pending
    ensures (exists now :: SweptEarly(limit, m, id, now)) <==> m.pending[id].timeoutMs > limit
  {
    var p := m.pending[id];
    if p.timeoutMs > limit {
      var now := p.startedAt + limit;
      assert Overdue(now, limit)(p);
      assert SweptEarly(limit, m, id, now);
    }
  }

  // ----- after a disconnect -----

  /** No request to connect and no client that shakes hands. */
  predicate LeftAlone(events: seq<Event>) {
    forall i :: 0 <= i < |events| ==> !events[i].Connect? && !events[i].Handshake?
  }

  predicate Off(m: Manager) {
    m.status == Disconnected && m.ws.None? && !m.listening
  }

  ghost predicate StaysOff(limit: int, m: Manager) {
    forall later :: LeftAlone(later) ==> Off(Run(limit, m, later))
  }

  ghost predicate Asleep(m: Manager) {
    Off(m) && m.pending == map[] && m.timers == {} && !m.sweep && !m.heartbeat && m.armed == {} &&
      m.reconnectTimer.None?
  }

  lemma {:induction false} StaysAsleep(limit: int, m: Manager, later: seq<Event>)
    requires Asleep(m) && LeftAlone(later)
    ensures Asleep(Run(limit, m, later))
  {
    if later != [] {
      StaysAsleep(limit, m, later[..|later| - 1]);
      SleepStep(limit, Run(limit, m, later[..|later| - 1]), later[|later| - 1]);
    }
  }

  lemma SleepStep(limit: int, m: Manager, e: Event)
    requires Asleep(m) && !e.Connect? && !e.Handshake?
    ensures Asleep(Step(limit, m, e))
  {
    if e.Disconnect? {
      StopEmpties(m);
    }
  }

  lemma StopEmpties(m: Manager)
    ensures var t := Stop(m);
      Off(t) && t.pending == map[] && t.timers == m.timers - m.pending.Keys && !t.sweep && !t.heartbeat
      && t.reconnectTimer.None? && t.armed == m.armed - Remembered(m)
  {
    assert (set id | id in m.pending && Any()(m.pending[id]) :: id) == m.pending.Keys;
  }

  lemma WakesUp(limit: int, m: Manager, timer: nat)
    requires Off(m) && timer in m.armed
    ensures Run(limit, m, [ReconnectFires(timer, true)]).listening && !StaysOff(limit, m)
  {
    var later := [ReconnectFires(timer, true)];
    assert later[..0] == [] && Run(limit, m, later) == Step(limit, Run(limit, m, []), later[0]);
    assert LeftAlone(later) && !Off(Run(limit, m, later));
  }

  /** A disconnect lasts until the next connect or handshake exactly when no reconnect
      timer but the remembered one is armed: any other goes off and listens again. */
  lemma DisconnectLastsIff(limit: int, events: seq<Event>)
    ensures var m := StateAfter(limit, events);
      StaysOff(limit, Step(limit, m, Disconnect)) <==> m.armed <= Remembered(m)
  {
    var m := StateAfter(limit, events);
    var down := Step(limit, m, Disconnect);
    ReachableInv(limit, events);
    StopEmpties(m);
    if m.armed <= Remembered(m) {
      forall later | LeftAlone(later) ensures Off(Run(limit, down, later)) {
        StaysAsleep(limit, down, later);
      }
    } else {
      var timer :| timer in m.armed && timer !in Remembered(m);
      WakesUp(limit, down, timer);
    }
  }

  lemma {:induction false} RunSteps(limit: int, m: Manager, events: seq<Event>, e: Event)
    ensures Run(limit, m, events + [e]) == Step(limit, Run(limit, m, events), e)
  {
    assert (events + [e])[..|events|] == events;
  }

  /** An input that shows it: two clients lost within one delay, then the disconnect. */
  lemma TwoLostClientsWakeUp(limit: int)
    ensures var events := [Connect(true)] + [Handshake(1, true)] + [SocketClosed(1)] + [Handshake(2, true)] +
      [SocketClosed(2)];
      !StaysOff(limit, Step(limit, StateAfter(limit, events), Disconnect))
  {
    var e1 := [Connect(true)];
    var e2 := e1 + [Handshake(1, true)];
    var e3 := e2 + [SocketClosed(1)];
    var e4 := e3 + [Handshake(2, true)];
    RunSteps(limit, Initial(), [], Connect(true));
    assert [] + e1 == e1;
    RunSteps(limit, Initial(), e1, Handshake(1, true));
    RunSteps(limit, Initial(), e2, SocketClosed(1));
    RunSteps(limit, Initial(), e3, Handshake(2, true));
    RunSteps(limit, Initial(), e4, SocketClosed(2));
    var m := StateAfter(limit, e4 + [SocketClosed(2)]);
    assert m.reconnectTimer == Some(1) && 0 in m.armed;
    DisconnectLastsIff(limit, e4 + [SocketClosed(2)]);
  }
}
