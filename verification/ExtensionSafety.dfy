/** What the connection machine of the extension guarantees over whole runs: stale
    callbacks, the silence after a disconnect, and where a failed scan leaves it. */
module ExtensionSafety {
  import opened Basics
  import opened ExtensionConnection

  /** The two states show the user and the bridge the same session; attempts and scans may differ. */
  predicate SameSession(s: Extension, t: Extension) {
    && t.phase == s.phase && t.port == s.port && t.runId == s.runId && t.activeRun == s.activeRun
    && t.manualDisconnect == s.manualDisconnect && t.reconnectTimer == s.reconnectTimer && t.armed == s.armed
    && t.heartbeat == s.heartbeat && t.autoConnect == s.autoConnect && t.activated == s.activated
  }

  predicate Current(s: Extension, i: nat, generation: nat) {
    i < |s.attempts| ==> s.attempts[i].run == s.runId && s.attempts[i].generation == generation
  }

  /** A callback, timer or scan continuation that an older run or generation left behind. */
  predicate Stale(s: Extension, e: Event) {
    match e
    case SocketOpened(i, g) => !Current(s, i, g)
    case MessageArrived(i, g, _) => !Current(s, i, g)
    case SocketClosed(i, g) => !Current(s, i, g)
    case SocketErrored(i, g) => !Current(s, i, g)
    case AttemptTimeout(i) => i < |s.attempts| ==> s.attempts[i].run != s.runId
    case FallbackFires(i, _) => i < |s.attempts| ==> s.attempts[i].run != s.runId
    case ScanResumes(run, _) => run != s.runId
    case _ => false
  }

  /** The event times out an attempt of an older run that still holds the socket. */
  predicate DropsOldSocket(s: Extension, e: Event) {
    && e.AttemptTimeout? && e.attempt < |s.attempts|
    && s.attempts[e.attempt].run < s.runId && s.attempts[e.attempt].handle == s.socket
  }

  /** Stale events leave the session as it is. Only a socket that an older run's
      attempt left behind may be dropped, and never that of a connected session. */
  lemma StaleEventsHarmless(events: seq<Event>, e: Event)
    requires Stale(Run(Initial(), events), e)
    ensures var s := Run(Initial(), events);
      var t := Step(s, e);
      SameSession(s, t) && (t.socket != s.socket ==> t.socket.None? && s.phase != Connected && DropsOldSocket(s, e))
  {
    ReachableInv(events);
    StaleHarmless(Run(Initial(), events), e);
  }

  lemma StaleHarmless(s: Extension, e: Event)
    requires Inv(s) && Stale(s, e)
    ensures SameSession(s, Step(s, e))
    ensures Step(s, e).socket != s.socket ==> Step(s, e).socket.None? && s.phase != Connected && DropsOldSocket(s, e)
  {
    if e.AttemptTimeout? && e.attempt < |s.attempts| {
      OnlyWinnerOwns(s.attempts, s.scans, s.runId, s.nextHandle, s.socket, e.attempt, s.phase);
    }
    StaleStep(s, e);
  }

  lemma StaleStep(s: Extension, e: Event)
    requires Stale(s, e)
    requires e.AttemptTimeout? && e.attempt < |s.attempts| ==>
      Detached(s, e.attempt) && s.attempts[e.attempt].run <= s.runId
    ensures SameSession(s, Step(s, e))
    ensures Step(s, e).socket != s.socket ==> Step(s, e).socket.None? && s.phase != Connected && DropsOldSocket(s, e)
  {
    match e
    case AttemptTimeout(i) => if i < |s.attempts| { TimeoutOf(s, i); }
    case ScanResumes(run, api) => if run in s.scans && s.scans[run].attempt < |s.attempts| { ResumeOf(s, run, api); }
    case _ =>
  }

  lemma TimeoutOf(s: Extension, i: nat)
    requires i < |s.attempts|
    ensures SameSession(s, OnTimeout(s, i))
    ensures OnTimeout(s, i).socket == if s.socket == s.attempts[i].handle then None else s.socket
  {
  }

  lemma ResumeOf(s: Extension, run: nat, api: Api)
    requires run in s.scans && s.scans[run].attempt < |s.attempts| && run != s.runId
    ensures SameSession(s, Resume(s, run, api)) && Resume(s, run, api).socket == s.socket
  {
  }

  /** A connected session's socket is not this attempt's, unless the attempt connected it. */
  ghost predicate Detached(s: Extension, i: nat)
    requires i < |s.attempts|
  {
    s.phase == Connected && s.socket.Some? && s.attempts[i].handle == s.socket ==>
      s.attempts[i].run == s.runId && s.attempts[i].result == Some(true)
  }

  lemma ResultCases(r: Option<bool>)
    ensures r == None || r == Some(true) || r == Some(false)
  {
    match r
    case None =>
    case Some(b) => if b { assert r == Some(true); } else { assert r == Some(false); }
  }

  /** In a connected session an attempt holding the socket is the current run's. */
  lemma OnlyWinnerOwns(attempts: Attempts, scans: map<nat, Scan>, runId: nat, nextHandle: Handle,
                       socket: Option<Handle>, i: nat, phase: Phase)
    requires AttemptsInv(attempts, runId, nextHandle) && SocketInv(attempts, socket) && i < |attempts|
    requires phase == Connected ==> ConnectedInv(attempts, scans, runId, socket)
    ensures phase == Connected && socket.Some? && attempts[i].handle == socket ==>
      attempts[i].run == runId && attempts[i].result == Some(true)
  {
    if phase == Connected && socket.Some? && attempts[i].handle == socket {
      var k: nat :| Owns(attempts, socket, k);
      assert k == i;
      assert attempts[i].run == runId;
      ResultCases(attempts[i].result);
    }
  }

  /** Attempts other than the one that connected, and their timers. */
  predicate FromLoser(s: Extension, e: Event) {
    match e
    case SocketOpened(i, _) => i < |s.attempts| ==> s.attempts[i].result != Some(true)
    case MessageArrived(i, _, _) => i < |s.attempts| ==> s.attempts[i].result != Some(true)
    case SocketClosed(i, _) => i < |s.attempts| ==> s.attempts[i].result != Some(true)
    case SocketErrored(i, _) => i < |s.attempts| ==> s.attempts[i].result != Some(true)
    case AttemptTimeout(_) => true
    case FallbackFires(_, _) => true
    case _ => false
  }

  /** Once connected, no event of an attempt that did not win, of whatever run,
      generation or outcome, and no attempt timer, touches the session or its socket. */
  lemma LiveSessionUndisturbed(events: seq<Event>, e: Event)
    requires Run(Initial(), events).phase == Connected && FromLoser(Run(Initial(), events), e)
    ensures var s := Run(Initial(), events);
      SameSession(s, Step(s, e)) && Step(s, e).socket == s.socket
  {
    ReachableInv(events);
    LoserHarmless(Run(Initial(), events), e);
  }

  lemma LoserHarmless(s: Extension, e: Event)
    requires Inv(s) && s.phase == Connected && FromLoser(s, e)
    ensures SameSession(s, Step(s, e)) && Step(s, e).socket == s.socket
  {
    if e.attempt < |s.attempts| {
      OnlyWinnerOwns(s.attempts, s.scans, s.runId, s.nextHandle, s.socket, e.attempt, s.phase);
      LoserStep(s, e);
    }
  }

  lemma LoserStep(s: Extension, e: Event)
    requires s.phase == Connected && FromLoser(s, e) && e.attempt < |s.attempts| && Detached(s, e.attempt)
    requires s.attempts[e.attempt].run == s.runId ==> s.attempts[e.attempt].result.Some?
    requires s.attempts[e.attempt].timeoutArmed || s.attempts[e.attempt].fallbackArmed ==>
      s.attempts[e.attempt].result.None?
    ensures SameSession(s, Step(s, e)) && Step(s, e).socket == s.socket
  {
  }

  /** In every reachable state a connected session has a port, and no more than one
      reconnect timer is armed: the one the state knows and can clear. */
  lemma ConnectedHasPortOneTimer(events: seq<Event>)
    ensures var s := Run(Initial(), events);
      && (s.phase == Connected ==> s.port.Some?)
      && |s.armed| <= 1
      && forall t :: t in s.armed <==> s.reconnectTimer == Some(t)
  {
    ReachableInv(events);
  }

  // ----- after a disconnect -----

  /** Requests after which a session is wanted again. */
  predicate Starts(e: Event) {
    e.ConnectCalled? || (e.ActivateCalled? && e.setting) || (e.AutoConnectCalled? && e.enabled)
  }

  predicate NoStart(events: seq<Event>) {
    forall i :: 0 <= i < |events| ==> !Starts(events[i])
  }

  ghost predicate Quiet(s: Extension) {
    && s.phase == Disconnected && s.manualDisconnect && s.reconnectTimer.None? && s.armed == {} && s.pendingEnables == 0
    && (forall i :: 0 <= i < |s.attempts| ==> s.attempts[i].run < s.runId)
    && (forall run :: run in s.scans ==> run < s.runId)
  }

  lemma AttemptEventQuiet(s: Extension, e: Event)
    requires Quiet(s) && OfAttempt(e)
    ensures Quiet(Step(s, e))
  {
  }

  lemma OtherEventQuiet(s: Extension, e: Event)
    requires Quiet(s) && !OfAttempt(e) && !Starts(e)
    ensures Quiet(Step(s, e))
  {
  }

  lemma StepStaysQuiet(s: Extension, e: Event)
    requires Quiet(s) && !Starts(e)
    ensures Quiet(Step(s, e))
  {
    if OfAttempt(e) {
      AttemptEventQuiet(s, e);
    } else {
      OtherEventQuiet(s, e);
    }
  }

  lemma {:induction false} RunStaysQuiet(s: Extension, events: seq<Event>)
    requires Quiet(s) && NoStart(events)
    ensures Quiet(Run(s, events))
  {
    if events != [] {
      RunStaysQuiet(s, events[..|events| - 1]);
      StepStaysQuiet(Run(s, events[..|events| - 1]), events[|events| - 1]);
    }
  }

  ghost predicate StaysDown(s: Extension) {
    forall later :: NoStart(later) ==> Run(s, later).phase != Connected
  }

  /** After a disconnect no order of timers, socket callbacks and half-finished scans
      brings the session back, exactly when no switching-on of auto-connect is still
      waiting for its setting to be saved. */
  lemma DisconnectIsFinalIff(events: seq<Event>)
    ensures var down := Step(Run(Initial(), events), DisconnectCalled);
      StaysDown(down) <==> down.pendingEnables == 0
  {
    ReachableInv(events);
    StaysDownIff(Run(Initial(), events));
  }

  lemma StaysDownIff(s: Extension)
    requires Inv(s)
    ensures StaysDown(DisconnectAll(s)) <==> s.pendingEnables == 0
  {
    var down := DisconnectAll(s);
    if s.pendingEnables == 0 {
      QuietAfterDisconnect(s);
      forall later | NoStart(later) ensures Run(down, later).phase != Connected {
        RunStaysQuiet(down, later);
      }
    } else {
      SavedEnableReconnects(down);
    }
  }

  lemma QuietAfterDisconnect(s: Extension)
    requires Inv(s) && s.pendingEnables == 0
    ensures Quiet(DisconnectAll(s))
  {
    assert forall run :: run in s.scans ==> ScanOk(s.attempts, s.runId, run, s.scans[run]);
  }

  lemma SavedEnableReconnects(down: Extension)
    requires down.phase == Disconnected && down.pendingEnables > 0
    ensures !StaysDown(down)
  {
    var saved, hello := AutoConnectSaved(true, Other), MessageArrived(|down.attempts|, 1, true);
    var later := [saved, hello];
    assert later[..1] == [saved] && [saved][..0] == [];
    assert Run(down, [saved]) == Step(Run(down, []), saved);
    assert Run(down, later) == Step(Run(down, [saved]), hello);
    assert NoStart(later) && Run(down, later).phase == Connected;
  }

  // ----- where a failed scan leaves the session -----

  /** The current run's scan has tried its last port, and that attempt has failed. */
  ghost predicate AtScanEnd(s: Extension) {
    && s.runId in s.scans && s.scans[s.runId].rest == [] && s.scans[s.runId].attempt < |s.attempts|
    && s.attempts[s.scans[s.runId].attempt].result == Some(false)
  }

  /** The end of a failed scan arms a retry exactly when it still finds the session
      connecting and the user has not disconnected. */
  lemma ScanEndRetriesIff(s: Extension, api: Api)
    requires Inv(s) && AtScanEnd(s)
    ensures var t := Step(s, ScanResumes(s.runId, api));
      && t.phase == Disconnected && t.activeRun.None? && t.runId !in t.scans
      && (t.reconnectTimer.Some? <==> s.reconnectTimer.Some? || (s.phase == Connecting && !s.manualDisconnect))
  {
  }

  // ----- one run from its beginning to the end of its scan -----

  /** What a run brings about itself: events of sockets, timers of attempts, the
      continuation of scans, and failing sends. */
  predicate RunEvent(e: Event) {
    || e.SocketOpened? || e.MessageArrived? || e.SocketClosed? || e.SocketErrored? || e.AttemptTimeout?
    || e.FallbackFires? || e.ScanResumes? || e.ConnectionFails?
  }

  predicate RunEvents(events: seq<Event>) {
    forall i :: 0 <= i < |events| ==> RunEvent(events[i])
  }

  /** A socket of the current run closes while it is the session's socket. */
  predicate OwnClose(s: Extension, e: Event) {
    e.SocketClosed? && Live(s, e.attempt, e.generation) && s.socket == s.attempts[e.attempt].handle
  }

  predicate LostOwnSocket(s: Extension, events: seq<Event>) {
    events != [] &&
    (LostOwnSocket(s, events[..|events| - 1]) || OwnClose(Run(s, events[..|events| - 1]), events[|events| - 1]))
  }

  ghost predicate NoServer(s: Extension) {
    forall i :: 0 <= i < |s.attempts| && s.attempts[i].run == s.runId ==> s.attempts[i].result != Some(true)
  }

  ghost predicate Scanning(s: Extension, lost: bool) {
    && s.runId in s.scans && s.activeRun == Some(s.runId) && !s.manualDisconnect && s.reconnectTimer.None?
    && s.phase == if lost then Disconnected else Connecting
  }

  ghost predicate Ended(s: Extension, lost: bool) {
    && s.runId !in s.scans && s.activeRun.None? && !s.manualDisconnect && s.phase == Disconnected
    && (s.reconnectTimer.Some? <==> !lost)
  }

  /** Attempts keep their run and their result; only more are added. */
  ghost predicate Grown(before: Attempts, after: Attempts) {
    && |before| <= |after|
    && forall i :: 0 <= i < |before| ==>
         after[i].run == before[i].run && (before[i].result.Some? ==> after[i].result == before[i].result)
  }

  /** What the events of one attempt leave alone, whatever they do to the phase. */
  ghost predicate SameScan(s: Extension, t: Extension) {
    && t.runId == s.runId && t.manualDisconnect == s.manualDisconnect && t.scans == s.scans &&
         t.activeRun == s.activeRun
    && Grown(s.attempts, t.attempts)
  }

  lemma OpenEffect(s: Extension, i: nat)
    requires i < |s.attempts|
    ensures var t := OnOpen(s, i); SameScan(s, t) && t.phase == s.phase && t.reconnectTimer == s.reconnectTimer
  {
  }

  lemma HelloEffect(s: Extension, i: nat)
    requires i < |s.attempts| && s.attempts[i].run == s.runId
    ensures var t := OnHello(s, i);
      if s.attempts[i].result.Some? then t == s else t.runId == s.runId && !NoServer(t)
  {
    var t := OnHello(s, i);
    assert s.attempts[i].result.None? ==> t.attempts[i].result == Some(true);
  }

  lemma CloseEffect(s: Extension, i: nat)
    requires i < |s.attempts| && s.phase != Connected
    ensures var t := OnClose(s, i);
      SameScan(s, t) && t.reconnectTimer == s.reconnectTimer &&
      t.phase == if s.socket == s.attempts[i].handle then Disconnected else s.phase
    ensures s.attempts[i].result.None? ==> OnClose(s, i).attempts[i].result == Some(false)
  {
  }

  lemma FailEffect(s: Extension, i: nat)
    requires i < |s.attempts|
    ensures SameScan(s, OnError(s, i)) && OnError(s, i).phase == s.phase &&
      OnError(s, i).reconnectTimer == s.reconnectTimer
    ensures OnTimeout(s, i) == OnError(s, i)
  {
  }

  lemma GenerationEffect(s: Extension, i: nat, api: Api)
    requires i < |s.attempts| && s.attempts[i].result.None?
    ensures var t := NextGeneration(s, i, api);
      SameScan(s, t) && t.phase == s.phase && t.reconnectTimer == s.reconnectTimer
  {
    assert NextGeneration(s, i, api).attempts[i].run == s.attempts[i].run;
  }

  lemma SpentEffect(s: Extension, i: nat)
    requires i < |s.attempts|
    ensures SameScan(s, s.(attempts := s.attempts[i := s.attempts[i].(fallbackArmed := false)]))
  {
  }

  lemma FallbackEffect(s: Extension, i: nat, api: Api)
    requires i < |s.attempts|
    ensures var t := OnFallback(s, i, api); SameScan(s, t) && t.phase == s.phase && t.reconnectTimer == s.reconnectTimer
  {
    if s.attempts[i].result.Some? || s.attempts[i].run != s.runId || s.attempts[i].isOpen {
      SpentEffect(s, i);
    } else {
      GenerationEffect(Released(s, i), i, api);
    }
  }

  lemma RecoverEffect(s: Extension)
    requires s.phase != Connected
    ensures SameScan(s, Recover(s)) && Recover(s).phase == s.phase && Recover(s).reconnectTimer == s.reconnectTimer
  {
  }

  /** Events of attempts: the phase changes only when the session's own socket closes. */
  lemma AttemptEffect(s: Extension, e: Event)
    requires RunEvent(e) && !e.ScanResumes? && s.phase != Connected
    ensures var t := Step(s, e);
      || (t.runId == s.runId && !NoServer(t))
      || (SameScan(s, t) && t.reconnectTimer == s.reconnectTimer && t.phase == if OwnClose(s, e) then Disconnected
           else s.phase)
  {
    match e
    case SocketOpened(i, g) => if Live(s, i, g) { OpenEffect(s, i); }
    case MessageArrived(i, g, hello) => if Live(s, i, g) { HelloEffect(s, i); }
    case SocketClosed(i, g) => if Live(s, i, g) { CloseEffect(s, i); }
    case SocketErrored(i, g) => if Live(s, i, g) { FailEffect(s, i); }
    case AttemptTimeout(i) => if i < |s.attempts| { FailEffect(s, i); }
    case FallbackFires(i, api) => if i < |s.attempts| { FallbackEffect(s, i, api); }
    case ConnectionFails => RecoverEffect(s);
  }

  /** Going on with the scan of another run changes nothing of the current one. */
  lemma OtherScanEffect(s: Extension, run: nat, api: Api)
    requires run in s.scans && s.scans[run].attempt < |s.attempts| && run != s.runId
    ensures var t := Resume(s, run, api);
      && t.attempts == s.attempts && t.scans == s.scans - {run} && t.runId == s.runId && t.activeRun == s.activeRun
      && t.manualDisconnect == s.manualDisconnect && t.phase == s.phase && t.reconnectTimer == s.reconnectTimer
  {
  }

  lemma EndEffect(s: Extension, lost: bool)
    requires Scanning(s, lost)
    ensures var t := EndScan(s, s.runId); t.attempts == s.attempts && t.runId == s.runId && Ended(t, lost)
  {
  }

  lemma NextPortEffect(s: Extension, api: Api, lost: bool)
    requires Scanning(s, lost) && s.scans[s.runId].attempt < |s.attempts|
    requires s.attempts[s.scans[s.runId].attempt].result == Some(false) && s.scans[s.runId].rest != []
    ensures var t := Resume(s, s.runId, api); Grown(s.attempts, t.attempts) && t.runId == s.runId && Scanning(t, lost)
  {
  }

  lemma OwnScanEffect(s: Extension, api: Api, lost: bool)
    requires Scanning(s, lost) && s.scans[s.runId].attempt < |s.attempts|
    requires s.attempts[s.scans[s.runId].attempt].result == Some(false)
    ensures var t := Resume(s, s.runId, api);
      Grown(s.attempts, t.attempts) && t.runId == s.runId && (Scanning(t, lost) || Ended(t, lost))
  {
    if s.scans[s.runId].rest == [] {
      EndEffect(s, lost);
    } else {
      NextPortEffect(s, api, lost);
    }
  }

  /** An attempt that has met a server keeps that result. */
  lemma ServerStays(s: Extension, t: Extension)
    requires t.runId == s.runId && Grown(s.attempts, t.attempts) && NoServer(t)
    ensures NoServer(s)
  {
  }

  lemma AttemptsGrow(s: Extension, e: Event)
    requires RunEvent(e)
    ensures Step(s, e).runId == s.runId && Grown(s.attempts, Step(s, e).attempts)
  {
    match e
    case SocketOpened(i, g) => if Live(s, i, g) { OpenEffect(s, i); }
    case MessageArrived(i, g, hello) => if Live(s, i, g) { HelloGrows(s, i); }
    case SocketClosed(i, g) => if Live(s, i, g) { CloseGrows(s, i); }
    case SocketErrored(i, g) => if Live(s, i, g) { FailEffect(s, i); }
    case AttemptTimeout(i) => if i < |s.attempts| { FailEffect(s, i); }
    case FallbackFires(i, api) => if i < |s.attempts| { FallbackEffect(s, i, api); }
    case ScanResumes(run, api) => if run in s.scans && s.scans[run].attempt < |s.attempts| { ResumeGrows(s, run, api); }
    case ConnectionFails => RecoverGrows(s);
  }

  lemma HelloGrows(s: Extension, i: nat)
    requires i < |s.attempts|
    ensures OnHello(s, i).runId == s.runId && Grown(s.attempts, OnHello(s, i).attempts)
  {
  }

  lemma CloseGrows(s: Extension, i: nat)
    requires i < |s.attempts|
    ensures OnClose(s, i).runId == s.runId && Grown(s.attempts, OnClose(s, i).attempts)
  {
  }

  lemma ResumeGrows(s: Extension, run: nat, api: Api)
    requires run in s.scans && s.scans[run].attempt < |s.attempts|
    ensures Resume(s, run, api).runId == s.runId && Grown(s.attempts, Resume(s, run, api).attempts)
  {
    EndGrows(s, run);
    EndGrows(s.(preferredPort := s.attempts[s.scans[run].attempt].port), run);
  }

  lemma EndGrows(s: Extension, run: nat)
    ensures EndScan(s, run).runId == s.runId && EndScan(s, run).attempts == s.attempts
  {
  }

  lemma RecoverGrows(s: Extension)
    ensures Recover(s).runId == s.runId && Recover(s).attempts == s.attempts
  {
  }

  lemma ScanStep(s: Extension, run: nat, api: Api, lost: bool)
    requires Inv(s) && NoServer(s) && (Scanning(s, lost) || Ended(s, lost))
    ensures var t := Step(s, ScanResumes(run, api)); Scanning(t, lost) || Ended(t, lost)
  {
    if run in s.scans && s.scans[run].attempt < |s.attempts| && s.attempts[s.scans[run].attempt].result.Some? {
      assert ScanOk(s.attempts, s.runId, run, s.scans[run]);
      if run == s.runId {
        ResultCases(s.attempts[s.scans[run].attempt].result);
        OwnScanEffect(s, api, lost);
      } else {
        OtherScanEffect(s, run, api);
      }
    }
  }

  /** Once its scan has ended, no socket of the run is the session's any more. */
  lemma EndedOwnsNothing(s: Extension, e: Event, lost: bool)
    requires Inv(s) && Ended(s, lost) && NoServer(s)
    ensures !OwnClose(s, e)
  {
    if s.socket.Some? {
      var k: nat :| Owns(s.attempts, s.socket, k);
      ResultCases(s.attempts[k].result);
    }
  }

  lemma RunStep(s: Extension, e: Event, lost: bool)
    requires Inv(s) && RunEvent(e) && NoServer(s) && NoServer(Step(s, e)) && (Scanning(s, lost) || Ended(s, lost))
    ensures var t, now := Step(s, e), lost || OwnClose(s, e); Scanning(t, now) || Ended(t, now)
  {
    if e.ScanResumes? {
      ScanStep(s, e.run, e.api, lost);
    } else {
      AttemptEffect(s, e);
      if Ended(s, lost) {
        EndedOwnsNothing(s, e, lost);
      }
    }
  }

  lemma {:induction false} RunOfRun(s: Extension, events: seq<Event>)
    requires Inv(s) && Scanning(s, false) && RunEvents(events) && NoServer(Run(s, events))
    ensures var t, lost := Run(s, events), LostOwnSocket(s, events);
      Inv(t) && t.runId == s.runId && (Scanning(t, lost) || Ended(t, lost))
  {
    if events != [] {
      var init, e := events[..|events| - 1], events[|events| - 1];
      AttemptsGrow(Run(s, init), e);
      ServerStays(Run(s, init), Step(Run(s, init), e));
      RunOfRun(s, init);
      RunStep(Run(s, init), e, LostOwnSocket(s, init));
      StepKeepsInv(Run(s, init), e);
    }
  }

  /** Main result: whatever order the events of a run come in, when its scan has ended
      without a server a retry is armed exactly if no socket of the run closed while it
      was the session's. One port that opens and closes before its hello, at any place
      in the scan, is enough to leave the session down without a retry. */
  lemma FailedRunRetriesIff(s: Extension, ports: seq<Port>, api: Api, events: seq<Event>)
    requires Inv(s) && ports != [] && RunEvents(events)
    requires var t := Run(BeginRun(s, ports, api), events); NoServer(t) && t.runId !in t.scans
    ensures var start := BeginRun(s, ports, api);
      var t := Run(start, events);
      && t.runId == start.runId && t.phase == Disconnected && t.activeRun.None?
      && (t.reconnectTimer.Some? <==> !LostOwnSocket(start, events))
  {
    BeginRunKeepsInv(s, ports, api);
    RunOfRun(BeginRun(s, ports, api), events);
  }

  // ----- both ends happen -----

  lemma {:induction false} RunAppend(s: Extension, a: seq<Event>, b: seq<Event>)
    ensures Run(s, a + b) == Run(Run(s, a), b)
    ensures LostOwnSocket(s, a + b) <==> LostOwnSocket(s, a) || LostOwnSocket(Run(s, a), b)
  {
    if b == [] {
      assert a + b == a;
    } else {
      var init := b[..|b| - 1];
      assert (a + b)[..|a + b| - 1] == a + init;
      RunAppend(s, a, init);
    }
  }

  lemma RunOne(s: Extension, e: Event)
    ensures Run(s, [e]) == Step(s, e) && (LostOwnSocket(s, [e]) <==> OwnClose(s, e))
  {
    assert [e][..0] == [];
    assert Run(s, []) == s && !LostOwnSocket(s, []);
  }

  lemma RunTwo(s: Extension, d: Event, e: Event)
    ensures Run(s, [d, e]) == Step(Step(s, d), e)
    ensures LostOwnSocket(s, [d, e]) <==> OwnClose(s, d) || OwnClose(Step(s, d), e)
  {
    RunOne(s, d);
    RunOne(Step(s, d), e);
    RunAppend(s, [d], [e]);
    assert [d] + [e] == [d, e];
  }

  /** The scan waits for an attempt that can still report. */
  ghost predicate Waiting(s: Extension, lost: bool) {
    && Scanning(s, lost) && s.scans[s.runId].attempt < |s.attempts|
    && Live(s, s.scans[s.runId].attempt, 1) && s.attempts[s.scans[s.runId].attempt].result.None?
  }

  /** The port the scan waits for fails and the scan goes on. */
  lemma PortFails(s: Extension, lost: bool)
    requires Waiting(s, lost)
    ensures var scan := s.scans[s.runId];
      var t := Step(Step(s, SocketErrored(scan.attempt, 1)), ScanResumes(s.runId, Other));
      && t.runId == s.runId
      && (if scan.rest == [] then Ended(t, lost) else Waiting(t, lost) && t.scans[t.runId].rest == scan.rest[1..])
      && (NoServer(s) ==> NoServer(t))
  {
    var t := OnError(s, s.scans[s.runId].attempt);
    FailEffect(s, s.scans[s.runId].attempt);
    assert t.attempts[s.scans[s.runId].attempt].result == Some(false);
    if s.scans[s.runId].rest == [] {
      EndEffect(t, lost);
    } else {
      NextPortWaits(t, lost);
    }
  }

  lemma NextPortWaits(s: Extension, lost: bool)
    requires Scanning(s, lost) && s.scans[s.runId].attempt < |s.attempts|
    requires s.attempts[s.scans[s.runId].attempt].result == Some(false) && s.scans[s.runId].rest != []
    ensures var t := Resume(s, s.runId, Other);
      && t.runId == s.runId && Waiting(t, lost) && t.scans[t.runId].rest == s.scans[s.runId].rest[1..]
      && (NoServer(s) ==> NoServer(t))
  {
  }

  /** All ports still to try fail without opening. */
  lemma {:induction false} PortsFail(s: Extension, lost: bool) returns (events: seq<Event>)
    requires Waiting(s, lost) && NoServer(s)
    ensures RunEvents(events) && Run(s, events).runId == s.runId && Ended(Run(s, events), lost) &&
      NoServer(Run(s, events))
    ensures !LostOwnSocket(s, events)
    decreases |s.scans[s.runId].rest|
  {
    var d, e := SocketErrored(s.scans[s.runId].attempt, 1), ScanResumes(s.runId, Other);
    PortFails(s, lost);
    RunTwo(s, d, e);
    if s.scans[s.runId].rest == [] {
      events := [d, e];
    } else {
      var more := PortsFail(Step(Step(s, d), e), lost);
      RunAppend(s, [d, e], more);
      events := [d, e] + more;
    }
  }

  /** The port the scan waits for opens and closes before its hello. */
  lemma PortCloses(s: Extension)
    requires Waiting(s, false)
    ensures var i := s.scans[s.runId].attempt;
      var t := Step(Step(s, SocketOpened(i, 1)), SocketClosed(i, 1));
      && OwnClose(Step(s, SocketOpened(i, 1)), SocketClosed(i, 1))
      && t.runId == s.runId && Scanning(t, true) && t.scans == s.scans && i < |t.attempts| &&
           t.attempts[i].result == Some(false)
      && (NoServer(s) ==> NoServer(t))
  {
  }

  lemma Stalls(s: Extension) returns (events: seq<Event>)
    requires Waiting(s, false) && NoServer(s)
    ensures RunEvents(events) && Ended(Run(s, events), true) && NoServer(Run(s, events))
  {
    var i, closed := s.scans[s.runId].attempt, Run(s,
      [SocketOpened(s.scans[s.runId].attempt, 1), SocketClosed(s.scans[s.runId].attempt, 1)]);
    events := [SocketOpened(i, 1), SocketClosed(i, 1)];
    RunTwo(s, SocketOpened(i, 1), SocketClosed(i, 1));
    PortCloses(s);
    var rest := FailedPortGoesOn(closed, true);
    RunAppend(s, events, rest);
    events := events + rest;
  }

  lemma FailedPortGoesOn(s: Extension, lost: bool) returns (events: seq<Event>)
    requires Scanning(s, lost) && s.scans[s.runId].attempt < |s.attempts| && NoServer(s)
    requires s.attempts[s.scans[s.runId].attempt].result == Some(false)
    ensures RunEvents(events) && Ended(Run(s, events), lost) && NoServer(Run(s, events))
  {
    events := [ScanResumes(s.runId, Other)];
    RunOne(s, ScanResumes(s.runId, Other));
    if s.scans[s.runId].rest == [] {
      EndEffect(s, lost);
    } else {
      NextPortWaits(s, lost);
      var more := PortsFail(Run(s, events), lost);
      RunAppend(s, events, more);
      events := events + more;
    }
  }

  lemma BeginWaits(s: Extension, ports: seq<Port>)
    requires Inv(s) && ports != []
    ensures Waiting(BeginRun(s, ports, Other), false) && NoServer(BeginRun(s, ports, Other))
  {
    NextRunKeepsInv(s);
    assert forall i :: 0 <= i < |s.attempts| ==> s.attempts[i].run <= s.runId;
  }

  /** Whatever the ports are, a failed scan can end with a retry armed, and, when its
      first port opens and closes before its hello and no other port opens, without. */
  lemma EitherEnd(s: Extension, ports: seq<Port>) returns (retried: seq<Event>, stalled: seq<Event>)
    requires Inv(s) && ports != []
    ensures RunEvents(retried) && RunEvents(stalled)
    ensures var start := BeginRun(s, ports, Other);
      && Ended(Run(start, retried), false) && NoServer(Run(start, retried))
      && Ended(Run(start, stalled), true) && NoServer(Run(start, stalled))
  {
    BeginWaits(s, ports);
    retried := PortsFail(BeginRun(s, ports, Other), false);
    stalled := Stalls(BeginRun(s, ports, Other));
  }

  // ----- the last port -----

  lemma UnsettledNotConnected(s: Extension, i: nat)
    requires Inv(s) && s.runId in s.scans && s.scans[s.runId].attempt == i && s.attempts[i].result.None?
    ensures s.phase != Connected && s.attempts[i].run == s.runId
  {
    assert ScanOk(s.attempts, s.runId, s.runId, s.scans[s.runId]);
  }

  /** When the last port of a scan closes before its hello, a retry is armed exactly
      when the session was still connecting and that socket had not become its own:
      a socket that opened first marks the session disconnected when it closes. */
  lemma ClosedLastPortRetriesIff(s: Extension, i: nat, api: Api)
    requires Inv(s) && s.runId in s.scans && s.scans[s.runId] == Scan(i, [])
    requires s.attempts[i].result.None? && s.attempts[i].handle.Some?
    ensures var t := Step(Step(s, SocketClosed(i, s.attempts[i].generation)), ScanResumes(s.runId, api));
      && t.phase == Disconnected && t.activeRun.None?
      && (t.reconnectTimer.Some? <==>
           (s.reconnectTimer.Some? ||
             (s.phase == Connecting && !s.manualDisconnect && s.socket != s.attempts[i].handle)))
  {
    UnsettledNotConnected(s, i);
    CloseKeepsInv(s, i);
    CloseEffect(s, i);
    ScanEndRetriesIff(OnClose(s, i), api);
  }
}
