/** The extension side of the bridge connection: port scans, socket attempts with
    their generations, and the timers around them. Every callback that is still
    pending may arrive at any later moment. */
module ExtensionConnection {
  import opened Basics

  type Handle = nat
  type Timer = nat
  type Port = nat

  datatype Phase = Disconnected | Connecting | Connected

  /** What the socket API yields for an attempt: nothing, a register handle (whose
      open callback is watched by a fallback timer) or a handle of another kind. */
  datatype Api = NoApi | Register | Other

  /** One connectToPort call. `handle` belongs to the current generation; `result`
      is Some once the attempt has settled. */
  datatype Attempt = Attempt(
    run: nat, port: Port, result: Option<bool>, generation: nat, isOpen: bool, handle: Option<Handle>,
    timeoutArmed: bool, fallbackArmed: bool)

  /** A port scan waiting for its current attempt, with the ports still to try. */
  datatype Scan = Scan(attempt: nat, rest: seq<Port>)

  datatype Extension = Extension(
    phase: Phase, port: Option<Port>, socket: Option<Handle>, runId: nat, activeRun: Option<nat>,
    manualDisconnect: bool, reconnectTimer: Option<Timer>, armed: set<Timer>, heartbeat: bool, autoConnect: bool,
    activated: bool, preferredPort: Port, attempts: seq<Attempt>, scans: map<nat, Scan>,
    pendingEnables: nat, pendingDisables: nat, nextHandle: Handle, nextTimer: Timer)

  datatype Event =
    | ConnectCalled(manual: bool, api: Api)
    | DisconnectCalled
    | ActivateCalled(setting: bool, api: Api)
    | DeactivateCalled
    | AutoConnectCalled(enabled: bool)
    | AutoConnectSaved(enabled: bool, api: Api)
    | StatusShown(setting: bool)
    | ReconnectFires(timer: Timer, api: Api)
    | SocketOpened(attempt: nat, generation: nat)
    | MessageArrived(attempt: nat, generation: nat, hello: bool)
    | SocketClosed(attempt: nat, generation: nat)
    | SocketErrored(attempt: nat, generation: nat)
    | AttemptTimeout(attempt: nat)
    | FallbackFires(attempt: nat, api: Api)
    | ScanResumes(run: nat, api: Api)
    | ConnectionFails

  const BRIDGE_PORT: Port := 49620
  const PORT_SCAN_COUNT: nat := 10

  /** The scan order: the preferred port first if it is in range, then the others. */
  function ScanPorts(preferred: Port): (r: seq<Port>)
    ensures r != []
  {
    var range := seq(PORT_SCAN_COUNT, i requires 0 <= i => BRIDGE_PORT + i);
    if preferred in range then [preferred] + Others(range, preferred) else range
  }

  function Others(ports: seq<Port>, preferred: Port): seq<Port> {
    if ports == [] then []
    else (if ports[0] == preferred then [] else [ports[0]]) + Others(ports[1..], preferred)
  }

  function Initial(): Extension {
    Extension(Disconnected, None, None, 0, None, false, None, {}, false, true, false, BRIDGE_PORT, [], map[], 0, 0, 0,
      0)
  }

  // ----- building blocks -----

  function CloseSocket(s: Extension): Extension {
    s.(socket := None, port := None, phase := Disconnected)
  }

  function ClearReconnect(s: Extension): Extension {
    match s.reconnectTimer
    case None => s
    case Some(t) => s.(reconnectTimer := None, armed := s.armed - {t})
  }

  function ScheduleReconnect(s: Extension): Extension {
    if s.manualDisconnect || s.reconnectTimer.Some? then s
    else s.(reconnectTimer := Some(s.nextTimer), armed := s.armed + {s.nextTimer}, nextTimer := s.nextTimer + 1)
  }

  function StartAttempt(s: Extension, run: nat, port: Port, api: Api): Extension {
    if api == NoApi then s.(attempts := s.attempts + [Attempt(run, port, Some(false), 1, false, None, false, false)])
    else s.(attempts := s.attempts + [Attempt(run, port, None, 1, false, Some(s.nextHandle), true, api == Register)],
            nextHandle := s.nextHandle + 1)
  }

  /** A manual request does not wait for a running scan: it cancels it. */
  function Cancelled(s: Extension): Extension {
    if s.phase == Connecting && s.activeRun.Some? then CloseSocket(s.(runId := s.runId + 1, activeRun := None)) else s
  }

  function NextRun(s: Extension): Extension {
    ClearReconnect(s).(manualDisconnect := false, phase := Connecting, runId := s.runId + 1)
  }

  function BeginRun(s: Extension, ports: seq<Port>, api: Api): Extension
    requires ports != []
  {
    var ready := NextRun(s);
    StartAttempt(ready, ready.runId, ports[0], api)
      .(scans := ready.scans[ready.runId := Scan(|s.attempts|, ports[1..])], activeRun := Some(ready.runId))
  }

  function Connect(s: Extension, manual: bool, api: Api): Extension {
    if s.phase == Connected && s.port.Some? then s
    else if s.phase == Connecting && s.activeRun.Some? && !manual then s
    else BeginRun(Cancelled(s), ScanPorts(s.preferredPort), api)
  }

  function DisconnectAll(s: Extension): Extension {
    CloseSocket(ClearReconnect(s.(manualDisconnect := true, runId := s.runId + 1,
      activeRun := None)).(heartbeat := false))
  }

  function Recover(s: Extension): Extension {
    var wasConnected, wasConnecting := s.phase == Connected && s.port.Some?, s.phase == Connecting;
    if !wasConnected && !wasConnecting && s.socket.None? then s
    else
      var dropped := s.(heartbeat := false, socket := None, port := None);
      if wasConnecting then dropped
      else
        var down := dropped.(phase := Disconnected);
        if wasConnected && s.autoConnect && !s.manualDisconnect then ScheduleReconnect(down) else down
  }

  /** Settles an attempt unless it has settled; either way its timers are cleared. */
  function Finish(a: Attempt, connected: bool): Attempt {
    if a.result.Some? then a.(fallbackArmed := false)
    else a.(result := Some(connected), timeoutArmed := false, fallbackArmed := false)
  }

  /** A callback counts only for the current run and the attempt's current generation. */
  predicate Live(s: Extension, i: nat, generation: nat) {
    i < |s.attempts| && s.attempts[i].run == s.runId && s.attempts[i].generation == generation &&
      s.attempts[i].handle.Some?
  }

  function EndScan(s: Extension, run: nat): Extension {
    var ended := s.(scans := s.scans - {run});
    var settled :=
      if run == s.runId && s.phase == Connecting then
        var down := ended.(phase := Disconnected, socket := None, port := None);
        if s.manualDisconnect then down else ScheduleReconnect(down)
      else ended;
    if run == s.runId then settled.(activeRun := None) else settled
  }

  function Resume(s: Extension, run: nat, api: Api): Extension
    requires run in s.scans && s.scans[run].attempt < |s.attempts|
  {
    var scan := s.scans[run];
    var attempt := s.attempts[scan.attempt];
    if attempt.result == Some(true) then EndScan(s.(preferredPort := attempt.port), run)
    else if scan.rest == [] || run != s.runId || s.manualDisconnect then EndScan(s, run)
    else StartAttempt(s, run, scan.rest[0], api).(scans := s.scans[run := Scan(|s.attempts|, scan.rest[1..])])
  }

  function OnOpen(s: Extension, i: nat): Extension
    requires i < |s.attempts|
  {
    var a := s.attempts[i];
    if a.result.Some? then s
    else s.(attempts := s.attempts[i := a.(isOpen := true, fallbackArmed := false)], socket := a.handle)
  }

  function OnHello(s: Extension, i: nat): Extension
    requires i < |s.attempts|
  {
    var a := s.attempts[i];
    if a.result.Some? then s
    else s.(attempts := s.attempts[i := Finish(a, true)], socket := a.handle, port := Some(a.port), phase := Connected,
            manualDisconnect := false, heartbeat := true)
  }

  function OnClose(s: Extension, i: nat): Extension
    requires i < |s.attempts|
  {
    var a := s.attempts[i];
    var mine := s.socket == a.handle;
    var finished := s.(attempts := s.attempts[i := Finish(a, false)]);
    var closed := if mine then finished.(heartbeat := false, socket := None, port := None, phase := Disconnected)
      else finished;
    if mine && s.phase == Connected && !s.manualDisconnect then ScheduleReconnect(closed) else closed
  }

  function OnError(s: Extension, i: nat): Extension
    requires i < |s.attempts|
  {
    var a := s.attempts[i];
    s.(attempts := s.attempts[i := Finish(a, false)], socket := if s.socket == a.handle then None else s.socket)
  }

  function OnTimeout(s: Extension, i: nat): Extension
    requires i < |s.attempts|
  {
    var a := s.attempts[i];
    s.(attempts := s.attempts[i := Finish(a, false)], socket := if s.socket == a.handle then None else s.socket)
  }

  /** The session gives up its socket if it is the attempt's. */
  function Released(s: Extension, i: nat): Extension
    requires i < |s.attempts|
  {
    if s.socket == s.attempts[i].handle then s.(socket := None) else s
  }

  /** The attempt goes on without the register path, or fails when there is no other. */
  function NextGeneration(s: Extension, i: nat, api: Api): Extension
    requires i < |s.attempts|
  {
    var a := s.attempts[i].(generation := s.attempts[i].generation + 1, isOpen := false, fallbackArmed := false);
    if api == NoApi then s.(attempts := s.attempts[i := Finish(a.(handle := None), false)])
    else s.(attempts := s.attempts[i := a.(handle := Some(s.nextHandle))], nextHandle := s.nextHandle + 1)
  }

  /** The register path did not open in time: start the next generation. */
  function OnFallback(s: Extension, i: nat, api: Api): Extension
    requires i < |s.attempts|
  {
    var a := s.attempts[i];
    if a.result.Some? || a.run != s.runId || a.isOpen then
      s.(attempts := s.attempts[i := a.(fallbackArmed := false)])
    else NextGeneration(Released(s, i), i, api)
  }

  function Activate(s: Extension, setting: bool, api: Api): Extension {
    var loaded := s.(autoConnect := setting);
    if s.activated then
      if setting && s.phase == Disconnected && s.activeRun.None? then Connect(loaded, false, api) else loaded
    else
      var started := loaded.(activated := true);
      if setting then Connect(started, false, api) else started
  }

  function AutoSaved(s: Extension, enabled: bool, api: Api): Extension {
    if enabled then
      if s.pendingEnables == 0 then s
      else
        var on := s.(pendingEnables := s.pendingEnables - 1, manualDisconnect := false);
        if on.phase == Disconnected then Connect(on, false, api) else on
    else
      if s.pendingDisables == 0 then s
      else ClearReconnect(s.(pendingDisables := s.pendingDisables - 1, manualDisconnect := true))
  }

  /** The extension after one event; an event whose callback or timer is not
      pending changes nothing. */
  function Step(s: Extension, e: Event): Extension {
    match e
    case ConnectCalled(manual, api) => Connect(s, manual, api)
    case DisconnectCalled => DisconnectAll(s)
    case ActivateCalled(setting, api) => Activate(s, setting, api)
    case DeactivateCalled => DisconnectAll(s.(activated := false))
    case AutoConnectCalled(enabled) =>
      if enabled then s.(autoConnect := true, pendingEnables := s.pendingEnables + 1)
      else s.(autoConnect := false, pendingDisables := s.pendingDisables + 1)
    case AutoConnectSaved(enabled, api) => AutoSaved(s, enabled, api)
    case StatusShown(setting) =>
      var shown := s.(autoConnect := setting);
      if (s.phase == Connected && s.port.Some?) || s.phase == Connecting then shown
      else if setting && !s.manualDisconnect then ScheduleReconnect(shown) else shown
    case ReconnectFires(timer, api) =>
      if timer !in s.armed then s
      else
        var fired := s.(reconnectTimer := None, armed := s.armed - {timer});
        if s.phase == Disconnected then Connect(fired, false, api) else fired
    case SocketOpened(i, g) => if Live(s, i, g) then OnOpen(s, i) else s
    case MessageArrived(i, g, hello) => if Live(s, i, g) && hello then OnHello(s, i) else s
    case SocketClosed(i, g) => if Live(s, i, g) then OnClose(s, i) else s
    case SocketErrored(i, g) => if Live(s, i, g) then OnError(s, i) else s
    case AttemptTimeout(i) => if i < |s.attempts| && s.attempts[i].timeoutArmed then OnTimeout(s, i) else s
    case FallbackFires(i, api) => if i < |s.attempts| && s.attempts[i].fallbackArmed then OnFallback(s, i, api) else s
    case ScanResumes(run, api) =>
      if run in s.scans && s.scans[run].attempt < |s.attempts| && s.attempts[s.scans[run].attempt].result.Some?
      then Resume(s, run, api) else s
    case ConnectionFails => Recover(s)
  }

  // ----- invariants of every run -----

  type Attempts = seq<Attempt>

  /** Attempts belong to runs begun so far, and no two share a handle. */
  ghost predicate AttemptsInv(attempts: Attempts, runId: nat, nextHandle: Handle) {
    && (forall i :: 0 <= i < |attempts| ==> attempts[i].run <= runId)
    && (forall i :: 0 <= i < |attempts| && attempts[i].handle.Some? ==> attempts[i].handle.value < nextHandle)
    && (forall i, j :: 0 <= i < j < |attempts| && attempts[i].handle.Some? ==> attempts[i].handle != attempts[j].handle)
    && (forall i :: 0 <= i < |attempts| && (attempts[i].timeoutArmed || attempts[i].fallbackArmed) ==>
         attempts[i].result.None?)
  }

  ghost predicate ScanOk(attempts: Attempts, runId: nat, run: nat, scan: Scan) {
    run <= runId && scan.attempt < |attempts| && attempts[scan.attempt].run == run
  }

  /** Only the attempt a scan waits for can be unsettled in the current run. */
  ghost predicate ScansInv(attempts: Attempts, scans: map<nat, Scan>, runId: nat) {
    && (forall run :: run in scans ==> ScanOk(attempts, runId, run, scans[run]))
    && (forall i :: 0 <= i < |attempts| && attempts[i].run == runId && attempts[i].result.None? ==>
          runId in scans && scans[runId].attempt == i)
  }

  ghost predicate TimerInv(timer: Option<Timer>, armed: set<Timer>, nextTimer: Timer) {
    && armed == (if timer.Some? then {timer.value} else {})
    && (timer.Some? ==> timer.value < nextTimer)
  }

  ghost predicate Owns(attempts: Attempts, socket: Option<Handle>, i: nat) {
    i < |attempts| && socket.Some? && attempts[i].handle == socket && attempts[i].result != Some(false)
  }

  ghost predicate SocketInv(attempts: Attempts, socket: Option<Handle>) {
    socket.Some? ==> exists i: nat :: Owns(attempts, socket, i)
  }

  ghost predicate AllSettled(attempts: Attempts, run: nat) {
    forall i :: 0 <= i < |attempts| && attempts[i].run == run ==> attempts[i].result.Some?
  }

  /** While connected: only settled attempts in this run, and a socket, if any, that
      belongs to the attempt that succeeded in this run. */
  ghost predicate ConnectedInv(attempts: Attempts, scans: map<nat, Scan>, runId: nat, socket: Option<Handle>) {
    && AllSettled(attempts, runId)
    && (runId in scans ==> scans[runId].attempt < |attempts| && attempts[scans[runId].attempt].result == Some(true))
    && (forall i: nat :: Owns(attempts, socket, i) ==> attempts[i].run == runId)
  }

  ghost predicate Inv(s: Extension) {
    && AttemptsInv(s.attempts, s.runId, s.nextHandle)
    && ScansInv(s.attempts, s.scans, s.runId)
    && TimerInv(s.reconnectTimer, s.armed, s.nextTimer)
    && SocketInv(s.attempts, s.socket)
    && (s.phase == Connected ==> s.port.Some? && ConnectedInv(s.attempts, s.scans, s.runId, s.socket))
  }

  lemma TimerScheduled(timer: Option<Timer>, armed: set<Timer>, nextTimer: Timer)
    requires TimerInv(timer, armed, nextTimer)
    ensures timer.None? ==> TimerInv(Some(nextTimer), armed + {nextTimer}, nextTimer + 1)
    ensures timer.Some? ==> TimerInv(None, armed - {timer.value}, nextTimer)
  {
  }

  lemma ClearKeepsInv(s: Extension)
    requires Inv(s)
    ensures Inv(ClearReconnect(s)) && ClearReconnect(s).armed == {}
  {
    TimerScheduled(s.reconnectTimer, s.armed, s.nextTimer);
  }

  lemma ScheduleKeepsInv(s: Extension)
    requires Inv(s)
    ensures Inv(ScheduleReconnect(s))
  {
    TimerScheduled(s.reconnectTimer, s.armed, s.nextTimer);
  }

  /** Beginning a new run leaves no unsettled attempt in it. */
  lemma NewRun(attempts: Attempts, scans: map<nat, Scan>, runId: nat, nextHandle: Handle)
    requires AttemptsInv(attempts, runId, nextHandle) && ScansInv(attempts, scans, runId)
    ensures AttemptsInv(attempts, runId + 1, nextHandle) && ScansInv(attempts, scans, runId + 1)
    ensures AllSettled(attempts, runId + 1) && runId + 1 !in scans
  {
    assert forall run :: run in scans ==> ScanOk(attempts, runId, run, scans[run]);
  }

  /** Adding the next attempt of a run whose attempts have all settled. */
  lemma AppendAttempt(attempts: Attempts, scans: map<nat, Scan>, runId: nat, nextHandle: Handle, next: Attempt,
                      rest: seq<Port>, after: Handle)
    requires AttemptsInv(attempts, runId, nextHandle) && ScansInv(attempts, scans, runId) && AllSettled(attempts, runId)
    requires next.run == runId && nextHandle <= after
    requires next.handle.Some? ==> next.handle.value == nextHandle && nextHandle < after
    requires next.timeoutArmed || next.fallbackArmed ==> next.result.None?
    ensures AttemptsInv(attempts + [next], runId, after)
    ensures ScansInv(attempts + [next], scans[runId := Scan(|attempts|, rest)], runId)
  {
    var all, more := attempts + [next], scans[runId := Scan(|attempts|, rest)];
    forall run | run in more ensures ScanOk(all, runId, run, more[run]) {
      assert run in scans ==> ScanOk(attempts, runId, run, scans[run]);
    }
  }

  lemma OwnerKept(attempts: Attempts, next: Attempt, socket: Option<Handle>)
    requires SocketInv(attempts, socket)
    ensures SocketInv(attempts + [next], socket)
  {
    if socket.Some? {
      var i: nat :| Owns(attempts, socket, i);
      assert Owns(attempts + [next], socket, i);
    }
  }

  lemma StartKeepsInv(s: Extension, port: Port, api: Api, rest: seq<Port>)
    requires Inv(s) && s.phase != Connected && AllSettled(s.attempts, s.runId)
    ensures Inv(StartAttempt(s, s.runId, port, api).(scans := s.scans[s.runId := Scan(|s.attempts|, rest)]))
  {
    var t := StartAttempt(s, s.runId, port, api);
    var next := t.attempts[|s.attempts|];
    assert t.attempts == s.attempts + [next];
    AppendAttempt(s.attempts, s.scans, s.runId, s.nextHandle, next, rest, t.nextHandle);
    OwnerKept(s.attempts, next, s.socket);
  }

  lemma CancelledKeepsInv(s: Extension)
    requires Inv(s)
    ensures Inv(Cancelled(s)) && (s.phase != Connected ==> Cancelled(s).phase != Connected)
  {
    NewRun(s.attempts, s.scans, s.runId, s.nextHandle);
  }

  lemma NextRunKeepsInv(s: Extension)
    requires Inv(s)
    ensures Inv(NextRun(s)) && AllSettled(NextRun(s).attempts, NextRun(s).runId)
  {
    ClearKeepsInv(s);
    NewRun(s.attempts, s.scans, s.runId, s.nextHandle);
  }

  lemma BeginRunKeepsInv(s: Extension, ports: seq<Port>, api: Api)
    requires Inv(s) && ports != []
    ensures Inv(BeginRun(s, ports, api))
  {
    NextRunKeepsInv(s);
    StartKeepsInv(NextRun(s), ports[0], api, ports[1..]);
  }

  lemma ConnectKeepsInv(s: Extension, manual: bool, api: Api)
    requires Inv(s)
    ensures Inv(Connect(s, manual, api))
  {
    if !(s.phase == Connected && s.port.Some?) && !(s.phase == Connecting && s.activeRun.Some? && !manual) {
      CancelledKeepsInv(s);
      BeginRunKeepsInv(Cancelled(s), ScanPorts(s.preferredPort), api);
    }
  }

  lemma DisconnectKeepsInv(s: Extension)
    requires Inv(s)
    ensures Inv(DisconnectAll(s))
  {
    NewRun(s.attempts, s.scans, s.runId, s.nextHandle);
    TimerScheduled(s.reconnectTimer, s.armed, s.nextTimer);
  }

  lemma RecoverKeepsInv(s: Extension)
    requires Inv(s)
    ensures Inv(Recover(s))
  {
    TimerScheduled(s.reconnectTimer, s.armed, s.nextTimer);
  }

  lemma DropScan(attempts: Attempts, scans: map<nat, Scan>, runId: nat, run: nat)
    requires ScansInv(attempts, scans, runId) && run in scans && attempts[scans[run].attempt].result.Some?
    ensures ScansInv(attempts, scans - {run}, runId)
  {
    forall r | r in scans - {run} ensures ScanOk(attempts, runId, r, (scans - {run})[r]) {
      assert ScanOk(attempts, runId, r, scans[r]);
    }
  }

  /** Ending a settled scan. */
  lemma EndScanKeepsInv(s: Extension, run: nat)
    requires Inv(s) && run in s.scans && s.scans[run].attempt < |s.attempts| &&
      s.attempts[s.scans[run].attempt].result.Some?
    ensures Inv(EndScan(s, run))
  {
    DropScan(s.attempts, s.scans, s.runId, run);
    var ended := s.(scans := s.scans - {run});
    assert Inv(ended);
    var down := ended.(phase := Disconnected, socket := None, port := None);
    assert Inv(down);
    ScheduleKeepsInv(down);
  }

  lemma ResumeKeepsInv(s: Extension, run: nat, api: Api)
    requires Inv(s) && run in s.scans && s.scans[run].attempt < |s.attempts| &&
      s.attempts[s.scans[run].attempt].result.Some?
    ensures Inv(Resume(s, run, api))
  {
    var scan := s.scans[run];
    var attempt := s.attempts[scan.attempt];
    if attempt.result == Some(true) {
      EndScanKeepsInv(s.(preferredPort := attempt.port), run);
    } else if scan.rest == [] || run != s.runId || s.manualDisconnect {
      EndScanKeepsInv(s, run);
    } else {
      assert ScanOk(s.attempts, s.runId, run, scan);
      StartKeepsInv(s, scan.rest[0], api, scan.rest[1..]);
    }
  }

  /** Replacing an attempt by one of the same run that does not lose its result. */
  lemma ReplaceAttempt(attempts: Attempts, scans: map<nat, Scan>, runId: nat, nextHandle: Handle, i: nat, a: Attempt,
                       after: Handle)
    requires AttemptsInv(attempts, runId, nextHandle) && ScansInv(attempts, scans, runId) && i < |attempts|
    requires a.run == attempts[i].run && (attempts[i].result.Some? ==> a.result == attempts[i].result)
    requires a.timeoutArmed || a.fallbackArmed ==> a.result.None?
    requires nextHandle <= after
    requires a.handle == attempts[i].handle || a.handle == None || (a.handle == Some(nextHandle) && nextHandle < after)
    ensures AttemptsInv(attempts[i := a], runId, after) && ScansInv(attempts[i := a], scans, runId)
  {
    var all := attempts[i := a];
    forall run | run in scans ensures ScanOk(all, runId, run, scans[run]) {
      assert ScanOk(attempts, runId, run, scans[run]);
    }
  }

  /** The socket keeps its owner when another attempt changes, or when its owner
      does not fail and keeps its handle. */
  lemma OwnerStays(attempts: Attempts, socket: Option<Handle>, i: nat, a: Attempt)
    requires SocketInv(attempts, socket) && i < |attempts|
    requires attempts[i].handle == socket ==>
      a.handle == socket && (a.result == Some(false) ==> attempts[i].result == Some(false))
    ensures SocketInv(attempts[i := a], socket)
  {
    if socket.Some? {
      var k: nat :| Owns(attempts, socket, k);
      assert Owns(attempts[i := a], socket, k);
    }
  }

  /** In a connected session a settled or foreign attempt cannot disturb ownership. */
  lemma ConnectedStays(attempts: Attempts, scans: map<nat, Scan>, runId: nat, socket: Option<Handle>, i: nat,
                       a: Attempt)
    requires ConnectedInv(attempts, scans, runId, socket) && i < |attempts| && a.run == attempts[i].run
    requires attempts[i].result.Some? ==> a.result == attempts[i].result
    requires a.run == runId ==> a.result.Some?
    requires a.handle == socket && socket.Some? ==>
      attempts[i].handle == socket && (attempts[i].result == Some(false) ==> a.result == Some(false))
    ensures ConnectedInv(attempts[i := a], scans, runId, socket)
  {
    var all := attempts[i := a];
    forall k: nat | Owns(all, socket, k) ensures all[k].run == runId {
      assert Owns(attempts, socket, k);
    }
  }

  lemma OpenKeepsInv(s: Extension, i: nat)
    requires Inv(s) && i < |s.attempts| && s.attempts[i].run == s.runId
    ensures Inv(OnOpen(s, i))
  {
    var a := s.attempts[i];
    if a.result.None? {
      ReplaceAttempt(s.attempts, s.scans, s.runId, s.nextHandle, i, a.(isOpen := true, fallbackArmed := false),
        s.nextHandle);
      var all := OnOpen(s, i).attempts;
      assert a.handle.Some? ==> Owns(all, a.handle, i);
    }
  }

  lemma HelloKeepsInv(s: Extension, i: nat)
    requires Inv(s) && i < |s.attempts| && s.attempts[i].run == s.runId
    ensures Inv(OnHello(s, i))
  {
    var a := s.attempts[i];
    if a.result.None? {
      ReplaceAttempt(s.attempts, s.scans, s.runId, s.nextHandle, i, Finish(a, true), s.nextHandle);
      var all := OnHello(s, i).attempts;
      assert a.handle.Some? ==> Owns(all, a.handle, i);
      forall k: nat | Owns(all, a.handle, k) ensures all[k].run == s.runId {
        assert k == i;
      }
    }
  }

  /** Settling attempt i as failed, with the socket dropped if it was the attempt's. */
  lemma FailKeepsInv(s: Extension, i: nat)
    requires Inv(s) && i < |s.attempts|
    ensures Inv(OnError(s, i)) && Inv(OnTimeout(s, i))
  {
    var a, t := s.attempts[i], OnError(s, i);
    ReplaceAttempt(s.attempts, s.scans, s.runId, s.nextHandle, i, Finish(a, false), s.nextHandle);
    if s.socket != a.handle {
      OwnerStays(s.attempts, s.socket, i, Finish(a, false));
    }
    if s.phase == Connected {
      if s.socket == a.handle {
        assert ConnectedInv(s.attempts, s.scans, s.runId, None);
        ConnectedStays(s.attempts, s.scans, s.runId, None, i, Finish(a, false));
      } else {
        ConnectedStays(s.attempts, s.scans, s.runId, s.socket, i, Finish(a, false));
      }
    }
  }

  lemma CloseKeepsInv(s: Extension, i: nat)
    requires Inv(s) && i < |s.attempts|
    ensures Inv(OnClose(s, i))
  {
    FailKeepsInv(s, i);
    var e := OnError(s, i);
    if s.socket == s.attempts[i].handle {
      var closed := e.(heartbeat := false, socket := None, port := None, phase := Disconnected);
      assert Inv(closed);
      ScheduleKeepsInv(closed);
    }
  }

  lemma SpentFallbackKeepsInv(s: Extension, i: nat)
    requires Inv(s) && i < |s.attempts|
    ensures Inv(s.(attempts := s.attempts[i := s.attempts[i].(fallbackArmed := false)]))
  {
    var a := s.attempts[i].(fallbackArmed := false);
    ReplaceAttempt(s.attempts, s.scans, s.runId, s.nextHandle, i, a, s.nextHandle);
    OwnerStays(s.attempts, s.socket, i, a);
    if s.phase == Connected {
      ConnectedStays(s.attempts, s.scans, s.runId, s.socket, i, a);
    }
  }

  lemma ReleasedKeepsInv(s: Extension, i: nat)
    requires Inv(s) && i < |s.attempts|
    ensures Inv(Released(s, i))
  {
  }

  lemma NextGenerationKeepsInv(s: Extension, i: nat, api: Api)
    requires Inv(s) && i < |s.attempts| && s.attempts[i].result.None? && s.attempts[i].run == s.runId
    requires s.socket.None? || s.socket != s.attempts[i].handle
    ensures Inv(NextGeneration(s, i, api))
  {
    var t := NextGeneration(s, i, api);
    var a := t.attempts[i];
    ReplaceAttempt(s.attempts, s.scans, s.runId, s.nextHandle, i, a, t.nextHandle);
    assert t.attempts == s.attempts[i := a];
    if s.socket.Some? {
      OwnerStays(s.attempts, s.socket, i, a);
    }
  }

  lemma FallbackKeepsInv(s: Extension, i: nat, api: Api)
    requires Inv(s) && i < |s.attempts|
    ensures Inv(OnFallback(s, i, api))
  {
    var a := s.attempts[i];
    if a.result.Some? || a.run != s.runId || a.isOpen {
      SpentFallbackKeepsInv(s, i);
    } else {
      ReleasedKeepsInv(s, i);
      NextGenerationKeepsInv(Released(s, i), i, api);
    }
  }

  lemma ActivateKeepsInv(s: Extension, setting: bool, api: Api)
    requires Inv(s)
    ensures Inv(Activate(s, setting, api))
  {
    var loaded := s.(autoConnect := setting);
    assert Inv(loaded) && Inv(loaded.(activated := true));
    ConnectKeepsInv(loaded, false, api);
    ConnectKeepsInv(loaded.(activated := true), false, api);
  }

  lemma SavedKeepsInv(s: Extension, enabled: bool, api: Api)
    requires Inv(s)
    ensures Inv(AutoSaved(s, enabled, api))
  {
    if enabled && s.pendingEnables > 0 {
      var on := s.(pendingEnables := s.pendingEnables - 1, manualDisconnect := false);
      assert Inv(on);
      ConnectKeepsInv(on, false, api);
    } else if !enabled && s.pendingDisables > 0 {
      var off := s.(pendingDisables := s.pendingDisables - 1, manualDisconnect := true);
      assert Inv(off);
      ClearKeepsInv(off);
    }
  }

  lemma FiresKeepsInv(s: Extension, timer: Timer, api: Api)
    requires Inv(s)
    ensures Inv(Step(s, ReconnectFires(timer, api)))
  {
    if timer in s.armed {
      var fired := s.(reconnectTimer := None, armed := s.armed - {timer});
      assert Inv(fired);
      ConnectKeepsInv(fired, false, api);
    }
  }

  lemma StatusKeepsInv(s: Extension, setting: bool)
    requires Inv(s)
    ensures Inv(Step(s, StatusShown(setting)))
  {
    var shown := s.(autoConnect := setting);
    assert Inv(shown);
    ScheduleKeepsInv(shown);
  }

  /** Events of a socket or a timer of one attempt. */
  predicate OfAttempt(e: Event) {
    e.SocketOpened? || e.MessageArrived? || e.SocketClosed? || e.SocketErrored? || e.AttemptTimeout? || e.FallbackFires?
  }

  lemma SocketEventKeepsInv(s: Extension, e: Event)
    requires Inv(s) && (e.SocketOpened? || e.MessageArrived? || e.SocketClosed? || e.SocketErrored?)
    ensures Inv(Step(s, e))
  {
    match e
    case SocketOpened(i, g) => if Live(s, i, g) { OpenKeepsInv(s, i); }
    case MessageArrived(i, g, hello) => if Live(s, i, g) { HelloKeepsInv(s, i); }
    case SocketClosed(i, g) => if Live(s, i, g) { CloseKeepsInv(s, i); }
    case SocketErrored(i, g) => if Live(s, i, g) { FailKeepsInv(s, i); }
  }

  lemma TimerEventKeepsInv(s: Extension, e: Event)
    requires Inv(s) && (e.AttemptTimeout? || e.FallbackFires?)
    ensures Inv(Step(s, e))
  {
    if e.attempt < |s.attempts| {
      FailKeepsInv(s, e.attempt);
      if e.FallbackFires? {
        FallbackKeepsInv(s, e.attempt, e.api);
      }
    }
  }

  lemma OtherEventKeepsInv(s: Extension, e: Event)
    requires Inv(s) && !OfAttempt(e)
    ensures Inv(Step(s, e))
  {
    match e
    case ConnectCalled(manual, api) => ConnectKeepsInv(s, manual, api);
    case DisconnectCalled => DisconnectKeepsInv(s);
    case ActivateCalled(setting, api) => ActivateKeepsInv(s, setting, api);
    case DeactivateCalled => DisconnectKeepsInv(s.(activated := false));
    case AutoConnectCalled(enabled) =>
    case AutoConnectSaved(enabled, api) => SavedKeepsInv(s, enabled, api);
    case StatusShown(setting) => StatusKeepsInv(s, setting);
    case ReconnectFires(timer, api) => FiresKeepsInv(s, timer, api);
    case ScanResumes(run, api) =>
      if run in s.scans && s.scans[run].attempt < |s.attempts| && s.attempts[s.scans[run].attempt].result.Some? {
        ResumeKeepsInv(s, run, api);
      }
    case ConnectionFails => RecoverKeepsInv(s);
  }

  /** Every event keeps the invariant. */
  lemma StepKeepsInv(s: Extension, e: Event)
    requires Inv(s)
    ensures Inv(Step(s, e))
  {
    if e.AttemptTimeout? || e.FallbackFires? {
      TimerEventKeepsInv(s, e);
    } else if OfAttempt(e) {
      SocketEventKeepsInv(s, e);
    } else {
      OtherEventKeepsInv(s, e);
    }
  }

  function Run(s: Extension, events: seq<Event>): Extension {
    if events == [] then s else Step(Run(s, events[..|events| - 1]), events[|events| - 1])
  }

  lemma {:induction false} ReachableInv(events: seq<Event>)
    ensures Inv(Run(Initial(), events))
  {
    if events != [] {
      ReachableInv(events[..|events| - 1]);
      StepKeepsInv(Run(Initial(), events[..|events| - 1]), events[|events| - 1]);
    }
  }
}
