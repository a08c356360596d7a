/** What each request, timer, message and scan step does to the session, and that connecting means scanning. */
module SessionRequests {
  import opened Basics
  import opened ExtensionConnection
  import opened SessionMeaning

  // ----- while connecting there is a scan -----

  /** A session that is connecting has a scan of the current run. */
  predicate Scanning(s: Extension) {
    s.phase == Connecting ==> s.activeRun == Some(s.runId)
  }

  lemma ConnectScans(s: Extension, manual: bool, api: Api)
    requires Scanning(s)
    ensures Scanning(Connect(s, manual, api))
  {
  }

  lemma EndScans(s: Extension, run: nat)
    requires Scanning(s)
    ensures Scanning(EndScan(s, run))
  {
  }

  lemma ResumeScans(s: Extension, run: nat, api: Api)
    requires Scanning(s) && run in s.scans && s.scans[run].attempt < |s.attempts|
    ensures Scanning(Resume(s, run, api))
  {
    EndScans(s, run);
    EndScans(s.(preferredPort := s.attempts[s.scans[run].attempt].port), run);
  }

  lemma RecoverScans(s: Extension)
    requires Scanning(s)
    ensures Scanning(Recover(s))
  {
  }

  lemma FallbackScans(s: Extension, i: nat, api: Api)
    requires Scanning(s) && i < |s.attempts|
    ensures Scanning(OnFallback(s, i, api))
  {
  }

  lemma AttemptEventScans(s: Extension, e: Event)
    requires Scanning(s) && OfAttempt(e)
    ensures Scanning(Step(s, e))
  {
    match e
    case SocketOpened(_, _) =>
    case MessageArrived(_, _, _) =>
    case SocketClosed(_, _) =>
    case SocketErrored(_, _) =>
    case AttemptTimeout(_) =>
    case FallbackFires(i, api) => if i < |s.attempts| { FallbackScans(s, i, api); }
  }

  lemma ActivateScans(s: Extension, setting: bool, api: Api)
    requires Scanning(s)
    ensures Scanning(Activate(s, setting, api))
  {
    ConnectScans(s.(autoConnect := setting), false, api);
    ConnectScans(s.(autoConnect := setting, activated := true), false, api);
  }

  lemma SavedScans(s: Extension, enabled: bool, api: Api)
    requires Scanning(s)
    ensures Scanning(AutoSaved(s, enabled, api))
  {
    if enabled && s.pendingEnables > 0 {
      ConnectScans(s.(pendingEnables := s.pendingEnables - 1, manualDisconnect := false), false, api);
    }
  }

  lemma SettingEventScans(s: Extension, e: Event)
    requires Scanning(s) && (e.ActivateCalled? || e.AutoConnectSaved? || e.ReconnectFires?)
    ensures Scanning(Step(s, e))
  {
    match e
    case ActivateCalled(setting, api) => ActivateScans(s, setting, api);
    case AutoConnectSaved(enabled, api) => SavedScans(s, enabled, api);
    case ReconnectFires(timer, api) =>
      ConnectScans(s.(reconnectTimer := None, armed := s.armed - {timer}), false, api);
  }

  lemma OtherEventScans(s: Extension, e: Event)
    requires Scanning(s) && !OfAttempt(e) && !e.ActivateCalled? && !e.AutoConnectSaved? && !e.ReconnectFires?
    ensures Scanning(Step(s, e))
  {
    match e
    case ConnectCalled(manual, api) => ConnectScans(s, manual, api);
    case ScanResumes(run, api) => if run in s.scans && s.scans[run].attempt < |s.attempts| { ResumeScans(s, run, api); }
    case ConnectionFails => RecoverScans(s);
    case DisconnectCalled =>
    case DeactivateCalled =>
    case AutoConnectCalled(_) =>
    case StatusShown(_) =>
  }

  lemma {:induction false} ConnectingScans(events: seq<Event>)
    ensures Scanning(Run(Initial(), events))
  {
    if events != [] {
      var s, e := Run(Initial(), events[..|events| - 1]), events[|events| - 1];
      ConnectingScans(events[..|events| - 1]);
      if OfAttempt(e) {
        AttemptEventScans(s, e);
      } else if e.ActivateCalled? || e.AutoConnectSaved? || e.ReconnectFires? {
        SettingEventScans(s, e);
      } else {
        OtherEventScans(s, e);
      }
    }
  }

  // ----- a new run -----

  /** A fresh attempt: settled at once without a socket API, else waiting under both its timers, the second
      one only for the register path. */
  predicate FreshTry(a: Attempt, run: nat, port: Port, api: Api, handle: Handle) {
    && a.run == run && a.port == port && a.generation == 1 && !a.isOpen
    && (if api == NoApi then a.result == Some(false) && a.handle == None && !a.timeoutArmed && !a.fallbackArmed
        else a.result == None && a.handle == Some(handle) && a.timeoutArmed && (a.fallbackArmed <==> api == Register))
  }

  /** A new run has begun with an attempt on the preferred port, or on 49620 if that is not one of the ten. */
  predicate BeginsRun(s: Extension, t: Extension, api: Api) {
    && t.phase == Connecting && t.runId > s.runId && t.activeRun == Some(t.runId) && !t.manualDisconnect
    && t.reconnectTimer == None && t.armed == {} && t.autoConnect == s.autoConnect
    && |t.attempts| == |s.attempts| + 1 && t.attempts[..|s.attempts|] == s.attempts
    && FreshTry(t.attempts[|s.attempts|], t.runId,
         if 49620 <= s.preferredPort <= 49629 then s.preferredPort else 49620, api, s.nextHandle)
  }

  lemma ConnectBegins(s: Extension, manual: bool, api: Api)
    requires TimerInv(s.reconnectTimer, s.armed, s.nextTimer) && (s.phase == Connected ==> s.port.Some?) && Scanning(s)
    ensures var t := Connect(s, manual, api);
      if s.phase == Connected || (s.phase == Connecting && !manual) then t == s
      else BeginsRun(s, t, api) && (s.phase == Connecting ==> t.socket == None)
  {
    if s.phase == Connecting {
      CancelMeans(s);
      BeginMeans(Cancelled(s), api);
      BegunAfter(s, Cancelled(s), BeginRun(Cancelled(s), ScanPorts(s.preferredPort), api), api);
    } else {
      BeginMeans(s, api);
    }
  }

  /** The session has given up its run and its socket and is otherwise as it was. */
  predicate GivenUp(s: Extension, c: Extension) {
    && c.runId > s.runId && c.socket == None && c.attempts == s.attempts && c.preferredPort == s.preferredPort
    && c.nextHandle == s.nextHandle && c.autoConnect == s.autoConnect
    && c.reconnectTimer == s.reconnectTimer && c.armed == s.armed && c.nextTimer == s.nextTimer
  }

  lemma CancelMeans(s: Extension)
    requires s.phase == Connecting && s.activeRun.Some?
    ensures GivenUp(s, Cancelled(s))
  {
  }

  lemma BegunAfter(s: Extension, c: Extension, t: Extension, api: Api)
    requires GivenUp(s, c) && BeginsRun(c, t, api)
    ensures BeginsRun(s, t, api)
  {
  }

  lemma BeginMeans(s: Extension, api: Api)
    requires TimerInv(s.reconnectTimer, s.armed, s.nextTimer)
    ensures var t := BeginRun(s, ScanPorts(s.preferredPort), api); BeginsRun(s, t, api) && t.socket == s.socket
  {
    FirstPort(s.preferredPort);
  }

  // ----- the requests -----

  /** What every run leaves behind, as far as a request depends on it. */
  ghost predicate Ready(s: Extension) {
    && TimerInv(s.reconnectTimer, s.armed, s.nextTimer) && (s.phase == Connected <==> s.port.Some?) && Scanning(s)
  }

  lemma RunIsReady(events: seq<Event>)
    ensures Ready(Run(Initial(), events))
  {
    SessionIsWhole(events);
    ConnectingScans(events);
    ExtensionConnection.ReachableInv(events);
  }

  /** A request to connect does nothing while connected, nor, unless the user makes it, while connecting;
      otherwise it begins a run, in place of one that is under way. */
  lemma ConnectMeans(events: seq<Event>, manual: bool, api: Api)
    ensures var s := Run(Initial(), events);
      var t := Step(s, ConnectCalled(manual, api));
      if s.phase == Connected || (s.phase == Connecting && !manual) then t == s
      else BeginsRun(s, t, api) && (s.phase == Connecting ==> t.socket == None)
  {
    RunIsReady(events);
    ConnectBegins(Run(Initial(), events), manual, api);
  }

  /** An activation loads the setting and, if that is on, connects a session that is down; a repeated one
      leaves a session alone whose scan has not ended. */
  lemma ActivateMeans(events: seq<Event>, setting: bool, api: Api)
    ensures var s := Run(Initial(), events);
      var t, loaded := Step(s, ActivateCalled(setting, api)), s.(autoConnect := setting, activated := true);
      if setting && s.phase == Disconnected && (s.activated ==> s.activeRun.None?) then BeginsRun(loaded, t, api)
      else t == loaded
  {
    var s := Run(Initial(), events);
    RunIsReady(events);
    ConnectBegins(s.(autoConnect := setting, activated := true), false, api);
  }

  /** A retry that fires connects a session that is down, and is used up either way. */
  lemma RetryMeans(events: seq<Event>, timer: Timer, api: Api)
    ensures var s := Run(Initial(), events);
      var t, fired := Step(s, ReconnectFires(timer, api)), s.(reconnectTimer := None, armed := {});
      if s.reconnectTimer != Some(timer) then t == s
      else if s.phase == Disconnected then BeginsRun(fired, t, api)
      else t == fired
  {
    var s := Run(Initial(), events);
    RunIsReady(events);
    if timer in s.armed {
      assert s.armed - {timer} == {};
      ConnectBegins(s.(reconnectTimer := None, armed := {}), false, api);
    }
  }

  /** Once switched on and saved, the setting lifts the user's disconnect and connects a session that is down. */
  lemma SwitchedOnMeans(events: seq<Event>, api: Api)
    ensures var s := Run(Initial(), events);
      var t := Step(s, AutoConnectSaved(true, api));
      if s.pendingEnables == 0 then t == s
      else
        var on := s.(pendingEnables := s.pendingEnables - 1, manualDisconnect := false);
        if s.phase == Disconnected then BeginsRun(on, t, api) else t == on
  {
    var s := Run(Initial(), events);
    RunIsReady(events);
    if s.pendingEnables > 0 {
      ConnectBegins(s.(pendingEnables := s.pendingEnables - 1, manualDisconnect := false), false, api);
    }
  }

  /** Once switched off and saved, it counts as the user's disconnect, and no retry is left; a session that is
      up stays up. */
  lemma SwitchedOffMeans(events: seq<Event>, api: Api)
    ensures var s := Run(Initial(), events);
      var t := Step(s, AutoConnectSaved(false, api));
      if s.pendingDisables == 0 then t == s
      else
        t == s.(pendingDisables := s.pendingDisables - 1, manualDisconnect := true, reconnectTimer := None, armed := {})
  {
    var s := Run(Initial(), events);
    RunIsReady(events);
    if s.reconnectTimer.Some? {
      assert s.armed - {s.reconnectTimer.value} == {};
    }
  }

  lemma ScheduleMeans(s: Extension)
    ensures var t := ScheduleReconnect(s);
      && t == s.(reconnectTimer := t.reconnectTimer, armed := t.armed, nextTimer := t.nextTimer)
      && (t.reconnectTimer.Some? <==> s.reconnectTimer.Some? || !s.manualDisconnect)
  {
  }

  lemma StatusFits(s: Extension, setting: bool)
    requires s.phase == Connected ==> s.port.Some?
    ensures var t := Step(s, StatusShown(setting));
      && t == s.(autoConnect := setting, reconnectTimer := t.reconnectTimer, armed := t.armed, nextTimer := t.nextTimer)
      && (s.phase != Disconnected ==> t.reconnectTimer == s.reconnectTimer)
      && (s.phase == Disconnected ==>
           (t.reconnectTimer.Some? <==> s.reconnectTimer.Some? || (setting && !s.manualDisconnect)))
  {
    ScheduleMeans(s.(autoConnect := setting));
  }

  /** Showing the status reloads the setting; a session that is down then has a retry armed exactly if it had
      one, or the setting is on and the user has not disconnected. */
  lemma StatusMeans(events: seq<Event>, setting: bool)
    ensures var s := Run(Initial(), events);
      var t := Step(s, StatusShown(setting));
      && t == s.(autoConnect := setting, reconnectTimer := t.reconnectTimer, armed := t.armed, nextTimer := t.nextTimer)
      && (s.phase != Disconnected ==> t.reconnectTimer == s.reconnectTimer)
      && (s.phase == Disconnected ==>
           (t.reconnectTimer.Some? <==> s.reconnectTimer.Some? || (setting && !s.manualDisconnect)))
  {
    RunIsReady(events);
    StatusFits(Run(Initial(), events), setting);
  }

  predicate TakenDown(s: Extension, t: Extension) {
    t == s.(phase := Disconnected, socket := None, port := None, heartbeat := false, runId := t.runId,
            activeRun := None, manualDisconnect := true, reconnectTimer := None, armed := {})
  }

  /** A disconnect takes the session down in any state: no socket, port, heartbeat, scan or retry is left, and the
      run is superseded. A deactivation does the same and makes the next activation a first one. */
  lemma DisconnectMeans(events: seq<Event>)
    ensures var s := Run(Initial(), events);
      && TakenDown(s, Step(s, DisconnectCalled)) && Step(s, DisconnectCalled).runId > s.runId
      && TakenDown(s.(activated := false), Step(s, DeactivateCalled)) && Step(s, DeactivateCalled).runId > s.runId
  {
    var s := Run(Initial(), events);
    RunIsReady(events);
    if s.reconnectTimer.Some? {
      assert s.armed - {s.reconnectTimer.value} == {};
    }
  }

  // ----- the scan -----

  /** When an attempt of the current run has failed, the scan goes on with a fresh one on its next port. */
  lemma NextPortTried(s: Extension, api: Api)
    requires s.runId in s.scans && s.scans[s.runId].attempt < |s.attempts| && s.scans[s.runId].rest != []
    requires s.attempts[s.scans[s.runId].attempt].result == Some(false) && !s.manualDisconnect
    ensures var t := Step(s, ScanResumes(s.runId, api));
      && |t.attempts| == |s.attempts| + 1 && t.attempts[..|s.attempts|] == s.attempts
      && FreshTry(t.attempts[|s.attempts|], s.runId, s.scans[s.runId].rest[0], api, s.nextHandle)
  {
  }

  /** A scan that ends without a server: the one of an older run leaves the session alone; the current one takes
      a connecting session down, without socket or port, and leaves a retry unless the user has disconnected. */
  lemma ScanEndMeans(s: Extension, run: nat, api: Api)
    requires run in s.scans && s.scans[run].attempt < |s.attempts|
    requires s.attempts[s.scans[run].attempt].result == Some(false)
    requires s.scans[run].rest == [] || run != s.runId || s.manualDisconnect
    ensures var t := Step(s, ScanResumes(run, api));
      && (run != s.runId ==> t == s.(scans := s.scans - {run}))
      && (run == s.runId && s.phase != Connecting ==> t == s.(scans := s.scans - {run}, activeRun := None))
      && (run == s.runId && s.phase == Connecting ==>
           EndedDown(s, t, run) && (t.reconnectTimer.Some? <==> s.reconnectTimer.Some? || !s.manualDisconnect))
  {
    if run == s.runId && s.phase == Connecting {
      ScheduleMeans(s.(scans := s.scans - {run}, phase := Disconnected, socket := None, port := None));
    }
  }

  predicate EndedDown(s: Extension, t: Extension, run: nat) {
    t == s.(scans := s.scans - {run}, phase := Disconnected, socket := None, port := None, activeRun := None,
            reconnectTimer := t.reconnectTimer, armed := t.armed, nextTimer := t.nextTimer)
  }

  // ----- the messages of an attempt -----

  /** The callback of this generation of attempt i still counts. */
  predicate Heard(s: Extension, i: nat, generation: nat) {
    && i < |s.attempts| && s.attempts[i].run == s.runId && s.attempts[i].generation == generation
    && s.attempts[i].handle.Some?
  }

  /** Only attempt i has changed among the attempts. */
  ghost predicate OnlyAttempt(s: Extension, t: Extension, i: nat) {
    && |t.attempts| == |s.attempts|
    && forall j :: 0 <= j < |s.attempts| && j != i ==> t.attempts[j] == s.attempts[j]
  }

  lemma HelloSettles(s: Extension, i: nat)
    requires i < |s.attempts| && s.attempts[i].result.None?
    ensures var t := OnHello(s, i);
      && t == s.(attempts := t.attempts, socket := s.attempts[i].handle, port := Some(s.attempts[i].port),
                 phase := Connected, manualDisconnect := false, heartbeat := true)
      && OnlyAttempt(s, t, i)
      && t.attempts[i] == s.attempts[i].(result := Some(true), timeoutArmed := false, fallbackArmed := false)
  {
  }

  lemma OpenTakes(s: Extension, i: nat)
    requires i < |s.attempts| && s.attempts[i].result.None?
    ensures var t := OnOpen(s, i);
      && t == s.(attempts := t.attempts, socket := s.attempts[i].handle) && OnlyAttempt(s, t, i)
      && t.attempts[i] == s.attempts[i].(isOpen := true, fallbackArmed := false)
  {
  }

  /** A hello connects the session through the waiting attempt it reaches: on its port and socket, with the
      heartbeat running, the user's earlier disconnect lifted and the attempt's timers off. Any other message
      changes nothing. */
  lemma HelloMeans(s: Extension, i: nat, generation: nat, hello: bool)
    ensures var t := Step(s, MessageArrived(i, generation, hello));
      if !(hello && Heard(s, i, generation) && s.attempts[i].result.None?) then t == s
      else
        && t == s.(attempts := t.attempts, socket := s.attempts[i].handle, port := Some(s.attempts[i].port),
                   phase := Connected, manualDisconnect := false, heartbeat := true)
        && OnlyAttempt(s, t, i)
        && t.attempts[i] == s.attempts[i].(result := Some(true), timeoutArmed := false, fallbackArmed := false)
  {
    if Heard(s, i, generation) && s.attempts[i].result.None? {
      HelloSettles(s, i);
    }
  }

  /** An opened socket becomes the session's, and its attempt no longer falls back; one that opens too late
      changes nothing. */
  lemma OpenMeans(s: Extension, i: nat, generation: nat)
    ensures var t := Step(s, SocketOpened(i, generation));
      if !(Heard(s, i, generation) && s.attempts[i].result.None?) then t == s
      else
        && t == s.(attempts := t.attempts, socket := s.attempts[i].handle) && OnlyAttempt(s, t, i)
        && t.attempts[i] == s.attempts[i].(isOpen := true, fallbackArmed := false)
  {
    if Heard(s, i, generation) && s.attempts[i].result.None? {
      OpenTakes(s, i);
      assert Step(s, SocketOpened(i, generation)) == OnOpen(s, i);
    }
  }

  /** When the first socket of a waiting attempt has not opened in time, the session gives that socket up and the
      attempt goes on with the next one, or fails if there is none; that of an older run only stops its timer. */
  lemma FallbackMeans(events: seq<Event>, i: nat, api: Api)
    requires i < |Run(Initial(), events).attempts| && Run(Initial(), events).attempts[i].fallbackArmed
    ensures var s := Run(Initial(), events);
      var t, a := Step(s, FallbackFires(i, api)), s.attempts[i];
      && OnlyAttempt(s, t, i)
      && (a.run != s.runId ==> t == s.(attempts := t.attempts) && t.attempts[i] == a.(fallbackArmed := false))
      && (a.run == s.runId ==>
           && t == s.(attempts := t.attempts, socket := if s.socket == a.handle then None else s.socket,
                      nextHandle := t.nextHandle)
           && WentOn(a, t.attempts[i], api, s.nextHandle))
  {
    SessionIsWhole(events);
    assert TimedOut(Run(Initial(), events).attempts[i]);
    FallbackFits(Run(Initial(), events), i, api);
  }

  lemma FallbackFits(s: Extension, i: nat, api: Api)
    requires i < |s.attempts| && s.attempts[i].result.None? && !s.attempts[i].isOpen
    ensures var t, a := OnFallback(s, i, api), s.attempts[i];
      && OnlyAttempt(s, t, i)
      && (a.run != s.runId ==> t == s.(attempts := t.attempts) && t.attempts[i] == a.(fallbackArmed := false))
      && (a.run == s.runId ==>
           && t == s.(attempts := t.attempts, socket := if s.socket == a.handle then None else s.socket,
                      nextHandle := t.nextHandle)
           && WentOn(a, t.attempts[i], api, s.nextHandle))
  {
    if s.attempts[i].run == s.runId {
      NextSocket(s, i, api);
    }
  }

  predicate WentOn(a: Attempt, b: Attempt, api: Api, handle: Handle) {
    if api == NoApi then
      b == a.(generation := a.generation + 1, handle := None, result := Some(false), timeoutArmed := false,
              fallbackArmed := false)
    else b == a.(generation := a.generation + 1, handle := Some(handle), fallbackArmed := false)
  }

  lemma NextSocket(s: Extension, i: nat, api: Api)
    requires i < |s.attempts| && s.attempts[i].result.None? && !s.attempts[i].isOpen
    ensures var t, a := NextGeneration(Released(s, i), i, api), s.attempts[i];
      && OnlyAttempt(s, t, i) && WentOn(a, t.attempts[i], api, s.nextHandle)
      && t == s.(attempts := t.attempts, socket := if s.socket == a.handle then None else s.socket,
                 nextHandle := t.nextHandle)
  {
  }
}
