/** Why the requests of the bridge end: every settlement traced to the event that made it,
    in terms of the events of a run and what was waiting before them. */
module BridgeCauses {
  import opened Basics
  import opened BridgeManagers

  /** Event e, arriving when the manager was in state m, ends request id for this reason. */
  predicate Ends(limit: int, m: Manager, e: Event, id: nat, cause: Cause) {
    id in m.pending &&
    match cause
    case Resolved => e == Response(id, true)
    case PeerError => e == Response(id, false)
    case TimedOut => e == TimerFires(id)
    case Expired => e.SweepTick? && e.now - m.pending[id].startedAt >= limit
    case Replaced => e.Handshake? && e.accepted && m.ws.Some? && m.ws != Some(e.client)
    case Closed => e.SocketClosed? && m.ws == Some(e.socket)
    case Shutdown => e.Disconnect? || (e.HeartbeatTick? && e.sendFails && !e.silent)
  }

  ghost predicate SomeCause(limit: int, m: Manager, e: Event, id: nat) {
    exists cause :: Ends(limit, m, e, id, cause)
  }

  /** The log grew by exactly the requests that `gone` holds for, with this cause, in issue order. */
  ghost predicate Logged(m: Manager, t: Manager, gone: Pending -> bool, cause: Cause) {
    && m.settled <= t.settled
    && (forall k :: |m.settled| <= k < |t.settled| ==>
          t.settled[k].id in m.pending && gone(m.pending[t.settled[k].id]) && t.settled[k].cause == cause)
    && (forall i, j :: |m.settled| <= i < j < |t.settled| ==> t.settled[i].id < t.settled[j].id)
    && (forall id :: id in t.pending <==> id in m.pending && !gone(m.pending[id]))
    && (forall id :: id in t.pending ==> t.pending[id] == m.pending[id])
  }

  ghost predicate IdsIncrease(log: seq<Settlement>) {
    forall i, j :: 0 <= i < j < |log| ==> log[i].id < log[j].id
  }

  lemma {:induction false} IssueOrder(pending: map<nat, Pending>, gone: Pending -> bool, n: nat, cause: Cause)
    ensures IdsIncrease(SettledUpTo(pending, gone, n, cause))
  {
    if n > 0 {
      IssueOrder(pending, gone, n - 1, cause);
      SettledUpToOnly(pending, gone, n - 1, cause);
      var log := SettledUpTo(pending, gone, n - 1, cause);
      forall i | 0 <= i < |log| ensures log[i].id < n {
        assert log[i] in log;
      }
    }
  }

  lemma SettleLogs(m: Manager, gone: Pending -> bool, cause: Cause)
    ensures Logged(m, Settle(m, gone, cause), gone, cause)
  {
    var log, t := SettledUpTo(m.pending, gone, m.issued, cause), Settle(m, gone, cause);
    IssueOrder(m.pending, gone, m.issued, cause);
    SettledUpToOnly(m.pending, gone, m.issued, cause);
    forall k | |m.settled| <= k < |t.settled|
      ensures t.settled[k] == log[k - |m.settled|] && Selected(t.settled[k], m.pending, gone, m.issued, cause)
    {
      assert log[k - |m.settled|] in log;
    }
  }

  /** The waiting requests that go are those the event ends, and each that goes is logged with its cause. */
  ghost predicate Traced(limit: int, m: Manager, e: Event, t: Manager) {
    && m.settled <= t.settled
    && (forall k :: |m.settled| <= k < |t.settled| ==> Ends(limit, m, e, t.settled[k].id, t.settled[k].cause))
    && (forall i, j :: |m.settled| <= i < j < |t.settled| ==> t.settled[i].id < t.settled[j].id)
    && (forall id :: id in m.pending && id !in t.pending ==> SomeCause(limit, m, e, id))
    && (forall id, cause :: Ends(limit, m, e, id, cause) ==> id !in t.pending)
    && (forall id :: id in m.pending && id in t.pending ==> t.pending[id] == m.pending[id])
  }

  lemma LoggedTraces(limit: int, m: Manager, e: Event, t: Manager, gone: Pending -> bool, cause: Cause)
    requires Logged(m, t, gone, cause)
    requires forall id :: id in m.pending && gone(m.pending[id]) ==> Ends(limit, m, e, id, cause)
    requires forall id, c :: Ends(limit, m, e, id, c) ==> gone(m.pending[id])
    ensures Traced(limit, m, e, t)
  {
  }

  lemma SettleTraces(limit: int, m: Manager, e: Event, base: Manager, gone: Pending -> bool, cause: Cause, t: Manager)
    requires base.pending == m.pending && base.settled == m.settled
    requires t.pending == Settle(base, gone, cause).pending && t.settled == Settle(base, gone, cause).settled
    requires forall id :: id in m.pending && gone(m.pending[id]) ==> Ends(limit, m, e, id, cause)
    requires forall id, c :: Ends(limit, m, e, id, c) ==> gone(m.pending[id])
    ensures Traced(limit, m, e, t)
  {
    SettleLogs(base, gone, cause);
    LoggedTraces(limit, m, e, t, gone, cause);
  }

  lemma NothingEnds(limit: int, m: Manager, e: Event, t: Manager)
    requires t.settled == m.settled
    requires forall id :: id in m.pending ==> id in t.pending && t.pending[id] == m.pending[id]
    requires forall id, cause :: !Ends(limit, m, e, id, cause)
    ensures Traced(limit, m, e, t)
  {
  }

  lemma OneEnds(limit: int, m: Manager, e: Event, id: nat, cause: Cause)
    requires Ends(limit, m, e, id, cause)
    requires forall k, c :: Ends(limit, m, e, k, c) ==> k == id
    ensures Traced(limit, m, e, SettleOne(m, id, cause))
  {
  }

  lemma OneEvent(limit: int, m: Manager, e: Event)
    requires e.Response? || e.TimerFires?
    requires m.timers == m.pending.Keys
    ensures Traced(limit, m, e, Step(limit, m, e))
  {
    if e.id in m.pending {
      OneEnds(limit, m, e, e.id, if e.TimerFires? then TimedOut else if e.ok then Resolved else PeerError);
    } else {
      NothingEnds(limit, m, e, Step(limit, m, e));
    }
  }

  lemma ShutdownEvent(limit: int, m: Manager, e: Event)
    requires e.Disconnect? || e.HeartbeatTick?
    requires SessionInv(m)
    ensures Traced(limit, m, e, Step(limit, m, e))
  {
    if Step(limit, m, e) == Stop(m) && (e.Disconnect? || (e.sendFails && !e.silent)) {
      SettleTraces(limit, m, e, Offline(m), Any(), Shutdown, Stop(m));
    } else {
      NothingEnds(limit, m, e, Step(limit, m, e));
    }
  }

  lemma SweepEvent(limit: int, m: Manager, e: Event)
    requires e.SweepTick? && SessionInv(m)
    ensures Traced(limit, m, e, Step(limit, m, e))
  {
    if m.sweep {
      SettleTraces(limit, m, e, m, Overdue(e.now, limit), Expired, Step(limit, m, e));
    } else {
      NothingEnds(limit, m, e, Step(limit, m, e));
    }
  }

  lemma SocketEvent(limit: int, m: Manager, e: Event)
    requires e.Handshake? || e.SocketClosed?
    ensures Traced(limit, m, e, Step(limit, m, e))
  {
    if e.Handshake? && e.accepted && m.ws.Some? && m.ws.value != e.client {
      SettleTraces(limit, m, e, m, Any(), Replaced, Step(limit, m, e));
    } else if e.SocketClosed? && m.ws == Some(e.socket) {
      SettleTraces(limit, m, e, Lost(m), Any(), Closed, Step(limit, m, e));
    } else {
      NothingEnds(limit, m, e, Step(limit, m, e));
    }
  }

  lemma ConnectEvent(limit: int, m: Manager, listens: bool)
    ensures Traced(limit, m, Connect(listens), TryConnect(m, listens))
  {
    NothingEnds(limit, m, Connect(listens), TryConnect(m, listens));
  }

  lemma RetryEvent(limit: int, m: Manager, timer: nat, listens: bool)
    ensures Traced(limit, m, ReconnectFires(timer, listens), Step(limit, m, ReconnectFires(timer, listens)))
  {
    var t := Step(limit, m, ReconnectFires(timer, listens));
    assert t.pending == m.pending && t.settled == m.settled;
    NothingEnds(limit, m, ReconnectFires(timer, listens), t);
  }

  lemma CallEvent(limit: int, m: Manager, now: int, name: string, timeoutMs: int)
    requires m.issued + 1 !in m.pending
    ensures Traced(limit, m, Call(now, name, timeoutMs), Step(limit, m, Call(now, name, timeoutMs)))
  {
    NothingEnds(limit, m, Call(now, name, timeoutMs), Step(limit, m, Call(now, name, timeoutMs)));
  }

  lemma StepTraces(limit: int, m: Manager, e: Event)
    requires SessionInv(m) && RequestInv(m)
    ensures Traced(limit, m, e, Step(limit, m, e))
  {
    match e
    case Response(_, _) => OneEvent(limit, m, e);
    case TimerFires(_) => OneEvent(limit, m, e);
    case SweepTick(_) => SweepEvent(limit, m, e);
    case Disconnect => ShutdownEvent(limit, m, e);
    case HeartbeatTick(_, _) => ShutdownEvent(limit, m, e);
    case Handshake(_, _) => SocketEvent(limit, m, e);
    case SocketClosed(_) => SocketEvent(limit, m, e);
    case Connect(listens) => ConnectEvent(limit, m, listens);
    case ReconnectFires(timer, listens) => RetryEvent(limit, m, timer, listens);
    case Call(now, name, timeoutMs) => CallEvent(limit, m, now, name, timeoutMs);
  }

  /** Main result: in any run, event n ends exactly the waiting requests it has a reason to end, and logs each
      once, with that reason, in issue order. */
  lemma EveryEventTraced(limit: int, events: seq<Event>, e: Event)
    ensures Traced(limit, StateAfter(limit, events), e, StateAfter(limit, events + [e]))
  {
    ReachableInv(limit, events);
    StepTraces(limit, StateAfter(limit, events), e);
    RunSteps(limit, Initial(), events, e);
  }

  /** Settlement k of a run was made by event n, and before that its request was waiting. */
  ghost predicate MadeBy(limit: int, events: seq<Event>, k: nat, n: nat)
    requires k < |StateAfter(limit, events).settled| && n < |events|
  {
    var x, m := StateAfter(limit, events).settled[k], StateAfter(limit, events[..n]);
    |m.settled| <= k && Ends(limit, m, events[n], x.id, x.cause)
  }

  /** Every settlement of a run goes back to the one event that gives its cause. */
  lemma {:induction false} SettlementsTraced(limit: int, events: seq<Event>, k: nat) returns (n: nat)
    requires k < |StateAfter(limit, events).settled|
    ensures n < |events| && MadeBy(limit, events, k, n)
  {
    assert events != [];
    n := |events| - 1;
    var before := StateAfter(limit, events[..n]);
    EveryEventTraced(limit, events[..n], events[n]);
    assert events[..n] + [events[n]] == events;
    if k < |before.settled| {
      n := SettlementsTraced(limit, events[..n], k);
      assert events[..|events| - 1][..n] == events[..n];
    }
  }

  /** A request is issued under the next id, with the name, time and timeout of its call; without a session
      none is. */
  lemma CallsIssue(limit: int, events: seq<Event>, now: int, name: string, timeoutMs: int)
    ensures var m := StateAfter(limit, events);
      var t := StateAfter(limit, events + [Call(now, name, timeoutMs)]);
      && (m.status == Connected ==> t.issued == m.issued + 1 && t.issued !in m.pending && t.issued in t.pending
                                    && t.pending[t.issued] == Pending(name, now, timeoutMs))
      && (m.status != Connected ==> t == m)
  {
    ReachableInv(limit, events);
    RunSteps(limit, Initial(), events, Call(now, name, timeoutMs));
  }

  // ----- timers that bring the server back -----

  predicate TimersKnown(m: Manager) {
    forall timer :: timer in m.armed ==> timer < m.nextTimer
  }

  lemma StopTimers(m: Manager)
    requires TimersKnown(m)
    ensures TimersKnown(Stop(m))
  {
    assert Stop(m).armed == Offline(m).armed && Stop(m).nextTimer == m.nextTimer;
  }

  lemma CloseTimers(m: Manager)
    requires TimersKnown(m)
    ensures TimersKnown(ScheduleReconnect(RejectAll(Lost(m), Closed)))
  {
    assert RejectAll(Lost(m), Closed).armed == m.armed && RejectAll(Lost(m), Closed).nextTimer == m.nextTimer;
  }

  lemma FireTimers(m: Manager, timer: nat, listens: bool)
    requires TimersKnown(m)
    ensures TimersKnown(Fire(m, timer, listens))
  {
  }

  lemma StepTimers(limit: int, m: Manager, e: Event)
    requires TimersKnown(m)
    ensures TimersKnown(Step(limit, m, e))
  {
    match e
    case Disconnect => StopTimers(m);
    case HeartbeatTick(_, _) => StopTimers(m);
    case SocketClosed(_) => CloseTimers(m);
    case ReconnectFires(timer, listens) => FireTimers(m, timer, listens);
    case _ => assert Step(limit, m, e).armed == m.armed && Step(limit, m, e).nextTimer == m.nextTimer;
  }

  lemma {:induction false} TimersStayKnown(limit: int, events: seq<Event>)
    ensures TimersKnown(StateAfter(limit, events))
  {
    if events != [] {
      var n := |events| - 1;
      TimersStayKnown(limit, events[..n]);
      StepTimers(limit, StateAfter(limit, events[..n]), events[n]);
    }
  }

  /** One timer more is armed, a new one, and it is the one a disconnect will clear. */
  predicate ArmedOneMore(m: Manager, t: Manager, before: set<nat>) {
    && t.reconnectTimer.Some? && t.reconnectTimer.value !in m.armed
    && t.armed == before + {t.reconnectTimer.value}
  }

  /** A lost client leaves the server listening as it was, with a new retry armed. The close of any other
      socket changes nothing. */
  lemma LostClientRetries(limit: int, events: seq<Event>, socket: Socket)
    ensures var m := StateAfter(limit, events);
      var t := StateAfter(limit, events + [SocketClosed(socket)]);
      && (m.ws != Some(socket) ==> t == m)
      && (m.ws == Some(socket) ==> t.status == Connecting && t.ws.None? && t.listening == m.listening
                                   && ArmedOneMore(m, t, m.armed))
  {
    TimersStayKnown(limit, events);
    RunSteps(limit, Initial(), events, SocketClosed(socket));
  }

  /** A retry that fires does nothing for a server that is up. Otherwise the server listens again, or has failed
      and a new retry is armed. */
  lemma RetriesGoOn(limit: int, events: seq<Event>, timer: nat, listens: bool)
    requires timer in StateAfter(limit, events).armed
    ensures var m := StateAfter(limit, events);
      var t := StateAfter(limit, events + [ReconnectFires(timer, listens)]);
      if m.status == Connected || m.status == Connecting then t == m.(armed := m.armed - {timer})
      else
        && t.status == (if listens then Connecting else Failed) && t.listening == listens
        && if listens then t.armed == m.armed - {timer} else ArmedOneMore(m, t, m.armed - {timer})
  {
    TimersStayKnown(limit, events);
    RunSteps(limit, Initial(), events, ReconnectFires(timer, listens));
  }
}
