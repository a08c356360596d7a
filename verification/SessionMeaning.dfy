/** What a connected session is, what every attempt can still count on, and when a lost session is tried again,
    over every run of events. */
module SessionMeaning {
  import opened Basics
  import opened ExtensionConnection
  import opened ExtensionSafety
  import opened ScanOrder

  /** Some attempt of the current run has met a server on this port. */
  ghost predicate Met(attempts: Attempts, runId: nat, port: Option<Port>) {
    exists i :: 0 <= i < |attempts| && MetBy(attempts[i], runId, port)
  }

  predicate MetBy(a: Attempt, runId: nat, port: Option<Port>) {
    a.run == runId && a.result == Some(true) && port == Some(a.port)
  }

  /** An attempt is open for a result exactly as long as its timeout is armed. The fallback timer runs only
      while the first socket of an open attempt has not opened. */
  predicate TimedOut(a: Attempt) {
    && (a.result.None? <==> a.timeoutArmed)
    && (a.fallbackArmed ==> a.result.None? && !a.isOpen && a.generation == 1)
  }

  /** A session is connected exactly when it has a port and a heartbeat; the port is that of an attempt of the
      current run that met a server. Every open attempt has its timeout. */
  ghost predicate Whole(s: Extension) {
    && (s.phase == Connected <==> s.port.Some?) && (s.phase == Connected <==> s.heartbeat)
    && (s.phase == Connected ==> Met(s.attempts, s.runId, s.port))
    && forall i :: 0 <= i < |s.attempts| ==> TimedOut(s.attempts[i])
  }

  lemma MetStays(before: Attempts, after: Attempts, runId: nat, port: Option<Port>)
    requires Met(before, runId, port) && Grown(before, after)
    requires forall i :: 0 <= i < |before| ==> after[i].port == before[i].port
    ensures Met(after, runId, port)
  {
    var i :| 0 <= i < |before| && MetBy(before[i], runId, port);
    assert MetBy(after[i], runId, port);
  }

  lemma StartWhole(s: Extension, run: nat, port: Port, api: Api)
    requires Whole(s)
    ensures Whole(StartAttempt(s, run, port, api))
  {
    if s.phase == Connected {
      MetStays(s.attempts, StartAttempt(s, run, port, api).attempts, s.runId, s.port);
    }
  }

  lemma BeginWhole(s: Extension, ports: seq<Port>, api: Api)
    requires Whole(s) && s.phase != Connected && ports != []
    ensures Whole(BeginRun(s, ports, api))
  {
    StartWhole(NextRun(s), NextRun(s).runId, ports[0], api);
  }

  lemma ConnectWhole(s: Extension, manual: bool, api: Api)
    requires Whole(s)
    ensures Whole(Connect(s, manual, api))
  {
    if !(s.phase == Connected && s.port.Some?) && !(s.phase == Connecting && s.activeRun.Some? && !manual) {
      assert Whole(Cancelled(s)) && Cancelled(s).phase != Connected;
      BeginWhole(Cancelled(s), ScanPorts(s.preferredPort), api);
    }
  }

  lemma DisconnectWhole(s: Extension)
    requires Whole(s)
    ensures Whole(DisconnectAll(s))
  {
  }

  lemma RecoverWhole(s: Extension)
    requires Whole(s)
    ensures Whole(Recover(s))
  {
  }

  lemma EndWhole(s: Extension, run: nat)
    requires Whole(s)
    ensures Whole(EndScan(s, run))
  {
  }

  lemma ResumeWhole(s: Extension, run: nat, api: Api)
    requires Whole(s) && run in s.scans && s.scans[run].attempt < |s.attempts|
    ensures Whole(Resume(s, run, api))
  {
    EndWhole(s, run);
    EndWhole(s.(preferredPort := s.attempts[s.scans[run].attempt].port), run);
    if s.scans[run].rest != [] {
      StartWhole(s, run, s.scans[run].rest[0], api);
    }
  }

  /** Attempt i is touched, and what becomes of the session fits. */
  lemma TouchedWhole(s: Extension, t: Extension, i: nat)
    requires Whole(s) && i < |s.attempts| && Touched(s, t, i) && TimedOut(t.attempts[i])
    requires (t.phase == Connected <==> t.port.Some?) && (t.phase == Connected <==> t.heartbeat)
    requires t.phase == Connected ==>
      (s.phase == Connected && t.port == s.port) || MetBy(t.attempts[i], t.runId, t.port)
    ensures Whole(t)
  {
    if t.phase == Connected && !MetBy(t.attempts[i], t.runId, t.port) {
      MetStays(s.attempts, t.attempts, s.runId, s.port);
    }
  }

  lemma OpenWhole(s: Extension, i: nat)
    requires Whole(s) && i < |s.attempts|
    ensures Whole(OnOpen(s, i))
  {
    OpenTouches(s, i);
    TouchedWhole(s, OnOpen(s, i), i);
  }

  lemma HelloWhole(s: Extension, i: nat)
    requires Whole(s) && i < |s.attempts| && s.attempts[i].run == s.runId
    ensures Whole(OnHello(s, i))
  {
    OpenTouches(s, i);
    TouchedWhole(s, OnHello(s, i), i);
  }

  lemma CloseWhole(s: Extension, i: nat)
    requires Whole(s) && i < |s.attempts|
    ensures Whole(OnClose(s, i))
  {
    CloseTouches(s, i);
    TouchedWhole(s, OnClose(s, i), i);
  }

  lemma FailWhole(s: Extension, i: nat)
    requires Whole(s) && i < |s.attempts|
    ensures Whole(OnError(s, i)) && Whole(OnTimeout(s, i))
  {
    FailTouches(s, i);
    TouchedWhole(s, OnError(s, i), i);
  }

  lemma GenerationKeepsSession(s: Extension, i: nat, api: Api)
    requires i < |s.attempts| && s.attempts[i].result.None? && s.attempts[i].timeoutArmed
    ensures var t := NextGeneration(s, i, api);
      t.phase == s.phase && t.port == s.port && t.heartbeat == s.heartbeat && TimedOut(t.attempts[i])
  {
  }

  lemma FallbackKeepsSession(s: Extension, i: nat, api: Api)
    requires i < |s.attempts| && TimedOut(s.attempts[i])
    ensures var t := OnFallback(s, i, api);
      t.phase == s.phase && t.port == s.port && t.heartbeat == s.heartbeat && TimedOut(t.attempts[i])
  {
    if !(s.attempts[i].result.Some? || s.attempts[i].run != s.runId || s.attempts[i].isOpen) {
      GenerationKeepsSession(Released(s, i), i, api);
    }
  }

  lemma FallbackWhole(s: Extension, i: nat, api: Api)
    requires Whole(s) && i < |s.attempts|
    ensures Whole(OnFallback(s, i, api))
  {
    FallbackTouches(s, i, api);
    FallbackKeepsSession(s, i, api);
    TouchedWhole(s, OnFallback(s, i, api), i);
  }

  lemma AttemptEventWhole(s: Extension, e: Event)
    requires Whole(s) && OfAttempt(e)
    ensures Whole(Step(s, e))
  {
    match e
    case SocketOpened(i, g) => if Live(s, i, g) { OpenWhole(s, i); }
    case MessageArrived(i, g, hello) => if Live(s, i, g) { HelloWhole(s, i); }
    case SocketClosed(i, g) => if Live(s, i, g) { CloseWhole(s, i); }
    case SocketErrored(i, g) => if Live(s, i, g) { FailWhole(s, i); }
    case AttemptTimeout(i) => if i < |s.attempts| { FailWhole(s, i); }
    case FallbackFires(i, api) => if i < |s.attempts| { FallbackWhole(s, i, api); }
  }

  lemma ActivateWhole(s: Extension, setting: bool, api: Api)
    requires Whole(s)
    ensures Whole(Activate(s, setting, api))
  {
    ConnectWhole(s.(autoConnect := setting), false, api);
    ConnectWhole(s.(autoConnect := setting, activated := true), false, api);
  }

  lemma SavedWhole(s: Extension, enabled: bool, api: Api)
    requires Whole(s)
    ensures Whole(AutoSaved(s, enabled, api))
  {
    if enabled && s.pendingEnables > 0 {
      ConnectWhole(s.(pendingEnables := s.pendingEnables - 1, manualDisconnect := false), false, api);
    }
  }

  lemma SettingEventWhole(s: Extension, e: Event)
    requires Whole(s) && (e.ActivateCalled? || e.AutoConnectSaved? || e.ReconnectFires?)
    ensures Whole(Step(s, e))
  {
    match e
    case ActivateCalled(setting, api) => ActivateWhole(s, setting, api);
    case AutoConnectSaved(enabled, api) => SavedWhole(s, enabled, api);
    case ReconnectFires(timer, api) =>
      ConnectWhole(s.(reconnectTimer := None, armed := s.armed - {timer}), false, api);
  }

  lemma OtherEventWhole(s: Extension, e: Event)
    requires Whole(s) && !OfAttempt(e) && !e.ActivateCalled? && !e.AutoConnectSaved? && !e.ReconnectFires?
    ensures Whole(Step(s, e))
  {
    match e
    case ConnectCalled(manual, api) => ConnectWhole(s, manual, api);
    case DisconnectCalled => DisconnectWhole(s);
    case DeactivateCalled => DisconnectWhole(s.(activated := false));
    case AutoConnectCalled(_) =>
    case StatusShown(_) =>
    case ScanResumes(run, api) => if run in s.scans && s.scans[run].attempt < |s.attempts| { ResumeWhole(s, run, api); }
    case ConnectionFails => RecoverWhole(s);
  }

  /** Main result on the session, after any run of events. */
  lemma {:induction false} SessionIsWhole(events: seq<Event>)
    ensures Whole(Run(Initial(), events))
  {
    if events != [] {
      var s, e := Run(Initial(), events[..|events| - 1]), events[|events| - 1];
      SessionIsWhole(events[..|events| - 1]);
      if OfAttempt(e) {
        AttemptEventWhole(s, e);
      } else if e.ActivateCalled? || e.AutoConnectSaved? || e.ReconnectFires? {
        SettingEventWhole(s, e);
      } else {
        OtherEventWhole(s, e);
      }
    }
  }

  // ----- the setting -----

  /** The event sets the auto-connect setting. */
  function Sets(e: Event): Option<bool> {
    match e
    case AutoConnectCalled(enabled) => Some(enabled)
    case ActivateCalled(setting, _) => Some(setting)
    case StatusShown(setting) => Some(setting)
    case _ => None
  }

  /** The last event that sets it decides; it starts switched on. */
  function LastSetting(events: seq<Event>): bool {
    if events == [] then true
    else if Sets(events[|events| - 1]).Some? then Sets(events[|events| - 1]).value
    else LastSetting(events[..|events| - 1])
  }

  lemma BeginKeepsSetting(s: Extension, ports: seq<Port>, api: Api)
    requires ports != []
    ensures BeginRun(s, ports, api).autoConnect == s.autoConnect
  {
    assert NextRun(s).autoConnect == s.autoConnect;
  }

  lemma ConnectKeepsSetting(s: Extension, manual: bool, api: Api)
    ensures Connect(s, manual, api).autoConnect == s.autoConnect
  {
    BeginKeepsSetting(Cancelled(s), ScanPorts(s.preferredPort), api);
    assert Cancelled(s).autoConnect == s.autoConnect;
  }

  lemma EndKeepsSetting(s: Extension, run: nat)
    ensures EndScan(s, run).autoConnect == s.autoConnect
  {
  }

  lemma ResumeKeepsSetting(s: Extension, run: nat, api: Api)
    requires run in s.scans && s.scans[run].attempt < |s.attempts|
    ensures Resume(s, run, api).autoConnect == s.autoConnect
  {
    EndKeepsSetting(s, run);
    EndKeepsSetting(s.(preferredPort := s.attempts[s.scans[run].attempt].port), run);
  }

  lemma AttemptKeepsSetting(s: Extension, e: Event)
    requires OfAttempt(e)
    ensures Step(s, e).autoConnect == s.autoConnect
  {
    if e.attempt < |s.attempts| {
      AttemptTouches(s, e);
    } else {
      AwayFromAttempts(s, e);
    }
  }

  lemma RequestSetting(s: Extension, e: Event)
    requires e.ActivateCalled? || e.AutoConnectSaved? || e.ReconnectFires?
    ensures Step(s, e).autoConnect == if Sets(e).Some? then Sets(e).value else s.autoConnect
  {
    match e
    case ActivateCalled(setting, api) =>
      ConnectKeepsSetting(s.(autoConnect := setting), false, api);
      ConnectKeepsSetting(s.(autoConnect := setting, activated := true), false, api);
    case AutoConnectSaved(enabled, api) =>
      if s.pendingEnables > 0 {
        ConnectKeepsSetting(s.(pendingEnables := s.pendingEnables - 1, manualDisconnect := false), false, api);
      }
    case ReconnectFires(timer, api) =>
      ConnectKeepsSetting(s.(reconnectTimer := None, armed := s.armed - {timer}), false, api);
  }

  lemma OtherSetting(s: Extension, e: Event)
    requires !OfAttempt(e) && !e.ActivateCalled? && !e.AutoConnectSaved? && !e.ReconnectFires?
    ensures Step(s, e).autoConnect == if Sets(e).Some? then Sets(e).value else s.autoConnect
  {
    match e
    case ConnectCalled(manual, api) => ConnectKeepsSetting(s, manual, api);
    case ScanResumes(run, api) =>
      if run in s.scans && s.scans[run].attempt < |s.attempts| { ResumeKeepsSetting(s, run, api); }
    case _ =>
  }

  lemma StepSetting(s: Extension, e: Event)
    ensures Step(s, e).autoConnect == if Sets(e).Some? then Sets(e).value else s.autoConnect
  {
    if OfAttempt(e) {
      AttemptKeepsSetting(s, e);
    } else if e.ActivateCalled? || e.AutoConnectSaved? || e.ReconnectFires? {
      RequestSetting(s, e);
    } else {
      OtherSetting(s, e);
    }
  }

  lemma {:induction false} SettingIsLast(events: seq<Event>)
    ensures Run(Initial(), events).autoConnect == LastSetting(events)
  {
    if events != [] {
      SettingIsLast(events[..|events| - 1]);
      StepSetting(Run(Initial(), events[..|events| - 1]), events[|events| - 1]);
    }
  }

  // ----- a lost session -----

  /** A session that fails is down, with a retry armed exactly if one was, or if the last setting wants it and the
      user has not disconnected. */
  lemma FailedSessionRetriesIff(events: seq<Event>)
    requires Run(Initial(), events).phase == Connected
    ensures var s := Run(Initial(), events);
      var t := Step(s, ConnectionFails);
      && t.phase == Disconnected && t.port.None? && t.socket.None? && !t.heartbeat
      && (t.reconnectTimer.Some? <==> s.reconnectTimer.Some? || (LastSetting(events) && !s.manualDisconnect))
  {
    SessionIsWhole(events);
    SettingIsLast(events);
  }

  /** A session whose socket closes is down too, but whether a retry is armed does not depend on the setting. */
  lemma ClosedSessionRetriesIff(events: seq<Event>, i: nat, generation: nat)
    requires Run(Initial(), events).phase == Connected
    requires OwnClose(Run(Initial(), events), SocketClosed(i, generation))
    ensures var s := Run(Initial(), events);
      var t := Step(s, SocketClosed(i, generation));
      && t.phase == Disconnected && t.port.None? && t.socket.None? && !t.heartbeat
      && (t.reconnectTimer.Some? <==> s.reconnectTimer.Some? || !s.manualDisconnect)
  {
  }

  // ----- the port to try first -----

  /** The end of a scan that met a server makes its port the preferred one, whatever run it belongs to. */
  lemma ServerIsPreferred(s: Extension, run: nat, api: Api)
    requires run in s.scans && s.scans[run].attempt < |s.attempts|
    requires s.attempts[s.scans[run].attempt].result == Some(true)
    ensures var t := Step(s, ScanResumes(run, api));
      t.preferredPort == s.attempts[s.scans[run].attempt].port && run !in t.scans && t.attempts == s.attempts
  {
  }

  lemma FirstPort(preferred: Port)
    ensures ScanPorts(preferred)[0] == if 49620 <= preferred <= 49629 then preferred else 49620
  {
    var ports := ScanPorts(preferred);
    ScanPortsExact(preferred);
    assert 49620 in ports && ports[0] in ports;
  }
}
