/** The functions of the extension that update its module-level connection variables,
    as methods of one object that holds those variables. Each method makes exactly the
    step of the connection machine and keeps the machine's invariant. */
module ExtensionSession {
  import opened Basics
  import opened ExtensionConnection
  import opened ExtensionSafety

  class Session {
    /** The module-level variables: connectionState, socketHandle, connectRunId and the rest. */
    var state: Extension

    /** While connected there is a port, and the one armed retry timer is the known one. */
    ghost predicate Valid(): (v: bool)
      reads this
      ensures v && state.phase == Connected ==> state.port.Some?
      ensures v ==> state.armed == if state.reconnectTimer.Some? then {state.reconnectTimer.value} else {}
    {
      Inv(state)
    }

    constructor ()
      ensures Valid() && state == Initial()
    {
      state := Initial();
    }

    /** A step of larger updates, so it may meet variables that do not fit together yet. */
    method CloseCurrentSocket()
      modifies this
      ensures state == CloseSocket(old(state))
    {
      state := state.(socket := None);
      state := state.(port := None);
      state := state.(phase := Disconnected);
    }

    /** Like the last method. Afterwards the known timer can no longer fire. */
    method ClearTimer()
      modifies this
      ensures state == ClearReconnect(old(state)) && state.reconnectTimer.None?
    {
      if state.reconnectTimer.Some? {
        state := state.(armed := state.armed - {state.reconnectTimer.value});
        state := state.(reconnectTimer := None);
      }
    }

    /** Afterwards a retry is armed, unless the user has disconnected. */
    method ArmReconnect()
      requires Valid()
      modifies this
      ensures state == ScheduleReconnect(old(state)) && Valid()
      ensures state.manualDisconnect || state.reconnectTimer.Some?
    {
      ScheduleKeepsInv(state);
      if state.manualDisconnect || state.reconnectTimer.Some? {
        return;
      }
      state := state.(reconnectTimer := Some(state.nextTimer));
      state := state.(armed := state.armed + {state.nextTimer});
      state := state.(nextTimer := state.nextTimer + 1);
    }

    /** A retry that fires finds a session or leaves a scan. */
    method ReconnectTimerFires(timer: Timer, api: Api)
      requires Valid() && timer in state.armed
      modifies this
      ensures state == Step(old(state), ReconnectFires(timer, api)) && Valid()
      ensures state.phase != Disconnected
    {
      state := state.(armed := state.armed - {timer});
      state := state.(reconnectTimer := None);
      if state.phase == Disconnected {
        ConnectInternal(false, api);
      }
    }

    /** The next attempt of the current run, with the ports its scan has left. */
    method ConnectToPort(port: Port, rest: seq<Port>, api: Api)
      requires Valid() && state.phase != Connected && AllSettled(state.attempts, state.runId)
      modifies this
      ensures state == StartAttempt(old(state), old(state).runId, port, api)
        .(scans := old(state).scans[old(state).runId := Scan(|old(state).attempts|, rest)])
      ensures Valid()
    {
      StartKeepsInv(state, port, api, rest);
      state := state.(scans := state.scans[state.runId := Scan(|state.attempts|, rest)]);
      if api == NoApi {
        state := state.(attempts := state.attempts +
          [Attempt(state.runId, port, Some(false), 1, false, None, false, false)]);
        return;
      }
      var attempt := Attempt(state.runId, port, None, 1, false, Some(state.nextHandle), true, api == Register);
      state := state.(nextHandle := state.nextHandle + 1);
      state := state.(attempts := state.attempts + [attempt]);
    }

    /** Runs until the scan waits for its first attempt. Afterwards there is a session
        or a scan. */
    method ConnectInternal(manual: bool, api: Api)
      requires Valid()
      modifies this
      ensures state == Connect(old(state), manual, api) && Valid()
      ensures state.phase != Disconnected
    {
      ConnectKeepsInv(state, manual, api);
      if state.phase == Connected && state.port.Some? {
        return;
      }
      if state.phase == Connecting && state.activeRun.Some? && !manual {
        return;
      }
      CancelScan();
      StartScan(ScanPorts(state.preferredPort), api);
    }

    /** A manual request does not wait for a running scan. */
    method CancelScan()
      requires Valid()
      modifies this
      ensures state == Cancelled(old(state)) && Valid()
    {
      CancelledKeepsInv(state);
      if state.phase == Connecting && state.activeRun.Some? {
        state := state.(runId := state.runId + 1);
        state := state.(activeRun := None);
        CloseCurrentSocket();
      }
    }

    /** While the new scan is on no retry is armed beside it. */
    method StartScan(ports: seq<Port>, api: Api)
      requires Valid() && ports != []
      modifies this
      ensures state == BeginRun(old(state), ports, api) && Valid()
      ensures state.phase == Connecting && state.armed == {}
    {
      NextRunKeepsInv(state);
      ClearTimer();
      state := state.(manualDisconnect := false);
      state := state.(phase := Connecting);
      state := state.(runId := state.runId + 1);
      assert state == NextRun(old(state));
      ConnectToPort(ports[0], ports[1..], api);
      state := state.(activeRun := Some(state.runId));
    }

    /** The rest of a scan once the attempt it waited for has settled. */
    method ResumeScan(run: nat, api: Api)
      requires Valid() && run in state.scans && state.scans[run].attempt < |state.attempts|
      requires state.attempts[state.scans[run].attempt].result.Some?
      modifies this
      ensures state == Resume(old(state), run, api) && Valid()
    {
      var scan := state.scans[run];
      var attempt := state.attempts[scan.attempt];
      if attempt.result == Some(true) {
        state := state.(preferredPort := attempt.port);
        FinishScan(run);
        return;
      }
      if scan.rest == [] || run != state.runId || state.manualDisconnect {
        FinishScan(run);
        return;
      }
      assert ScanOk(state.attempts, state.runId, run, scan);
      ConnectToPort(scan.rest[0], scan.rest[1..], api);
    }

    /** A scan of the current run that ends while connecting leaves the session down,
        with a retry armed unless the user has disconnected. */
    method FinishScan(run: nat)
      requires Valid() && run in state.scans && state.scans[run].attempt < |state.attempts|
      requires state.attempts[state.scans[run].attempt].result.Some?
      modifies this
      ensures state == EndScan(old(state), run) && Valid()
      ensures old(state).phase == Connecting && run == old(state).runId ==>
        state.phase == Disconnected && (state.manualDisconnect || state.reconnectTimer.Some?)
    {
      DropScan(state.attempts, state.scans, state.runId, run);
      state := state.(scans := state.scans - {run});
      if run == state.runId && state.phase == Connecting {
        state := state.(phase := Disconnected);
        state := state.(socket := None);
        state := state.(port := None);
        if !state.manualDisconnect {
          ArmReconnect();
        }
      }
      if run == state.runId {
        state := state.(activeRun := None);
      }
    }

    /** Afterwards the session stays down until it is asked for again, unless a
        switching-on of auto-connect still waits for its setting to be saved. */
    method DisconnectInternal()
      requires Valid()
      modifies this
      ensures state == Step(old(state), DisconnectCalled) && Valid()
      ensures state.phase == Disconnected && state.socket.None? && state.armed == {}
      ensures StaysDown(state) <==> state.pendingEnables == 0
    {
      StaysDownIff(state);
      DisconnectKeepsInv(state);
      state := state.(manualDisconnect := true);
      state := state.(runId := state.runId + 1);
      state := state.(activeRun := None);
      ClearTimer();
      state := state.(heartbeat := false);
      CloseCurrentSocket();
    }

    /** A failed send or a silent server ends a session, but not a scan. */
    method RecoverConnection()
      requires Valid()
      modifies this
      ensures state == Step(old(state), ConnectionFails) && Valid()
      ensures state.socket.None? && state.phase == if old(state).phase == Connecting then Connecting else Disconnected
    {
      RecoverKeepsInv(state);
      var wasConnected := state.phase == Connected && state.port.Some?;
      var wasConnecting := state.phase == Connecting;
      if !wasConnected && !wasConnecting && state.socket.None? {
        return;
      }
      state := state.(heartbeat := false);
      state := state.(socket := None);
      state := state.(port := None);
      if wasConnecting {
        return;
      }
      state := state.(phase := Disconnected);
      if wasConnected && state.autoConnect && !state.manualDisconnect {
        ArmReconnect();
      }
    }

    method HandleOpen(i: nat, generation: nat)
      requires Valid()
      modifies this
      ensures state == Step(old(state), SocketOpened(i, generation)) && Valid()
    {
      StepKeepsInv(state, SocketOpened(i, generation));
      if !Live(state, i, generation) || state.attempts[i].result.Some? {
        return;
      }
      state := state.(attempts := state.attempts[i := state.attempts[i].(isOpen := true, fallbackArmed := false)]);
      state := state.(socket := state.attempts[i].handle);
    }

    /** The first hello of a live attempt makes its port the session's. */
    method HandleMessage(i: nat, generation: nat, hello: bool)
      requires Valid()
      modifies this
      ensures state == Step(old(state), MessageArrived(i, generation, hello)) && Valid()
      ensures hello && Live(old(state), i, generation) && old(state).attempts[i].result.None? ==>
        state.phase == Connected && state.port == Some(old(state).attempts[i].port)
    {
      StepKeepsInv(state, MessageArrived(i, generation, hello));
      if !Live(state, i, generation) {
        return;
      }
      if hello && state.attempts[i].result.None? {
        state := state.(socket := state.attempts[i].handle);
        state := state.(port := Some(state.attempts[i].port));
        state := state.(phase := Connected);
        state := state.(manualDisconnect := false);
        state := state.(heartbeat := true);
        state := state.(attempts := state.attempts[i := Finish(state.attempts[i], true)]);
      }
    }

    /** A session that loses its socket is down, with a retry armed unless the user
        has disconnected. */
    method HandleClose(i: nat, generation: nat)
      requires Valid()
      modifies this
      ensures state == Step(old(state), SocketClosed(i, generation)) && Valid()
      ensures old(state).phase == Connected && OwnClose(old(state), SocketClosed(i, generation)) ==>
        state.phase == Disconnected && (state.manualDisconnect || state.reconnectTimer.Some?)
    {
      StepKeepsInv(state, SocketClosed(i, generation));
      if !Live(state, i, generation) {
        return;
      }
      var current := state.attempts[i].handle;
      var wasActiveConnection := state.socket == current && state.phase == Connected;
      FailKeepsInv(state, i);
      if state.socket == current {
        state := state.(heartbeat := false);
        state := state.(socket := None);
        state := state.(port := None);
        state := state.(phase := Disconnected);
      }
      state := state.(attempts := state.attempts[i := Finish(state.attempts[i], false)]);
      if wasActiveConnection && !state.manualDisconnect {
        ArmReconnect();
      }
    }

    method HandleError(i: nat, generation: nat)
      requires Valid()
      modifies this
      ensures state == Step(old(state), SocketErrored(i, generation)) && Valid()
    {
      StepKeepsInv(state, SocketErrored(i, generation));
      if !Live(state, i, generation) {
        return;
      }
      if state.socket == state.attempts[i].handle {
        state := state.(socket := None);
      }
      state := state.(attempts := state.attempts[i := Finish(state.attempts[i], false)]);
    }

    /** The attempt is settled and no longer holds the session's socket. */
    method TimeoutFires(i: nat)
      requires Valid() && i < |state.attempts| && state.attempts[i].timeoutArmed
      modifies this
      ensures state == Step(old(state), AttemptTimeout(i)) && Valid()
      ensures state.attempts[i].result == Some(false) &&
        (state.socket.Some? ==> state.socket != state.attempts[i].handle)
    {
      FailKeepsInv(state, i);
      if state.socket == state.attempts[i].handle {
        state := state.(socket := None);
      }
      state := state.(attempts := state.attempts[i := Finish(state.attempts[i], false)]);
    }

    method ReleaseSocket(i: nat)
      requires i < |state.attempts|
      modifies this
      ensures state == Released(old(state), i)
    {
      if state.socket == state.attempts[i].handle {
        state := state.(socket := None);
      }
    }

    /** Callbacks of the register path count no more once it has been given up. */
    method RegisterFallback(i: nat, api: Api)
      requires Valid() && i < |state.attempts| && state.attempts[i].fallbackArmed
      modifies this
      ensures state == OnFallback(old(state), i, api) && Valid()
      ensures old(state).attempts[i].run == state.runId && !old(state).attempts[i].isOpen ==>
        !Live(state, i, old(state).attempts[i].generation)
    {
      FallbackKeepsInv(state, i, api);
      var a := state.attempts[i];
      if a.result.Some? || a.run != state.runId || a.isOpen {
        state := state.(attempts := state.attempts[i := a.(fallbackArmed := false)]);
        return;
      }
      ReleaseSocket(i);
      assert state == Released(old(state), i) && state.attempts == old(state).attempts;
      StartNextSocket(i, api);
      assert state.attempts[i].generation == a.generation + 1;
    }

    /** The next generation of an attempt, without the register path. */
    method StartNextSocket(i: nat, api: Api)
      requires i < |state.attempts| && state.attempts[i].result.None?
      modifies this
      ensures state == NextGeneration(old(state), i, api)
    {
      var a := state.attempts[i].(generation := state.attempts[i].generation + 1, isOpen := false,
        fallbackArmed := false);
      if api == NoApi {
        a := Finish(a.(handle := None), false);
      } else {
        a := a.(handle := Some(state.nextHandle));
        state := state.(nextHandle := state.nextHandle + 1);
      }
      state := state.(attempts := state.attempts[i := a]);
    }

    /** A wanted session that is down has a retry armed afterwards. */
    method ShowStatus(setting: bool)
      requires Valid()
      modifies this
      ensures state == Step(old(state), StatusShown(setting)) && Valid()
      ensures setting && state.phase == Disconnected && !state.manualDisconnect ==> state.reconnectTimer.Some?
    {
      state := state.(autoConnect := setting);
      if (state.phase == Connected && state.port.Some?) || state.phase == Connecting {
        return;
      }
      if state.autoConnect && !state.manualDisconnect {
        ArmReconnect();
      }
    }

    /** Up to the wait for the setting to be saved. */
    method SetAutoConnect(enabled: bool)
      requires Valid()
      modifies this
      ensures state == Step(old(state), AutoConnectCalled(enabled)) && Valid()
    {
      state := state.(autoConnect := enabled);
      if enabled {
        state := state.(pendingEnables := state.pendingEnables + 1);
      } else {
        state := state.(pendingDisables := state.pendingDisables + 1);
      }
    }

    /** What follows the wait: after switching on there is a session or a scan, after
        switching off no retry can fire. */
    method AutoConnectSettingSaved(enabled: bool, api: Api)
      requires Valid() && if enabled then state.pendingEnables > 0 else state.pendingDisables > 0
      modifies this
      ensures state == AutoSaved(old(state), enabled, api) && Valid()
      ensures if enabled then state.phase != Disconnected else state.armed == {}
    {
      SavedKeepsInv(state, enabled, api);
      if enabled {
        state := state.(pendingEnables := state.pendingEnables - 1, manualDisconnect := false);
        if state.phase == Disconnected {
          ConnectInternal(false, api);
        }
      } else {
        state := state.(pendingDisables := state.pendingDisables - 1, manualDisconnect := true);
        ClearTimer();
      }
    }

    method HandleActivate(setting: bool, api: Api)
      requires Valid()
      modifies this
      ensures state == Activate(old(state), setting, api) && Valid()
      ensures setting && !old(state).activated ==> state.phase != Disconnected
    {
      state := state.(autoConnect := setting);
      assert state == old(state).(autoConnect := setting) && Valid();
      if state.activated {
        if setting && state.phase == Disconnected && state.activeRun.None? {
          ConnectInternal(false, api);
        }
        return;
      }
      state := state.(activated := true);
      if setting {
        ConnectInternal(false, api);
      }
    }

    /** As after a disconnect, and the next activation counts as the first. */
    method Deactivate()
      requires Valid()
      modifies this
      ensures state == Step(old(state), DeactivateCalled) && Valid()
      ensures !state.activated && (StaysDown(state) <==> state.pendingEnables == 0)
    {
      state := state.(activated := false);
      DisconnectInternal();
    }
  }
}
