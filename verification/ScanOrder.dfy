/** Which ports a scan tries, and what a session is made of, over every run of events. */
module ScanOrder {
  import opened Basics
  import opened ExtensionConnection
  import opened ExtensionSafety

  // ----- the list of ports -----

  lemma {:induction false} OthersExact(ports: seq<Port>, preferred: Port)
    requires forall i, j :: 0 <= i < j < |ports| ==> ports[i] < ports[j]
    ensures var rest := Others(ports, preferred);
      && (forall p :: p in rest <==> p in ports && p != preferred)
      && (forall i, j :: 0 <= i < j < |rest| ==> rest[i] < rest[j])
  {
    if ports != [] {
      OthersExact(ports[1..], preferred);
      var rest := Others(ports[1..], preferred);
      forall j | 0 <= j < |rest| ensures ports[0] < rest[j] {
        assert rest[j] in ports[1..];
        var k :| 0 <= k < |ports[1..]| && ports[1..][k] == rest[j];
        assert ports[k + 1] == rest[j];
      }
    }
  }

  /** The ten ports from 49620 on, each once: the preferred one first, if it is one of them, the others rising. */
  lemma ScanPortsExact(preferred: Port)
    ensures var ports := ScanPorts(preferred);
      && (forall p :: p in ports <==> 49620 <= p <= 49629)
      && (49620 <= preferred <= 49629 ==> ports[0] == preferred)
      && (forall i, j :: 0 <= i < j < |ports| && !(i == 0 && ports[0] == preferred) ==> ports[i] < ports[j])
      && (forall i, j :: 0 <= i < j < |ports| ==> ports[i] != ports[j])
  {
    var range := seq(PORT_SCAN_COUNT, i requires 0 <= i => BRIDGE_PORT + i);
    forall p: Port ensures p in range <==> 49620 <= p <= 49629 {
      if 49620 <= p <= 49629 {
        assert range[p - 49620] == p;
      }
    }
    OthersExact(range, preferred);
    var ports := ScanPorts(preferred);
    if preferred in range {
      var rest := Others(range, preferred);
      forall j | 0 <= j < |rest| ensures rest[j] != preferred {
        assert rest[j] in rest;
      }
    }
  }

  // ----- the attempts of one run -----

  /** The ports tried in a run, in order. */
  function Tried(attempts: Attempts, run: nat): seq<Port> {
    if attempts == [] then []
    else
      var n := |attempts| - 1;
      Tried(attempts[..n], run) + if attempts[n].run == run then [attempts[n].port] else []
  }

  lemma {:induction false} TriedSame(a: Attempts, b: Attempts, run: nat)
    requires |a| == |b| && forall i :: 0 <= i < |a| ==> b[i].run == a[i].run && b[i].port == a[i].port
    ensures Tried(b, run) == Tried(a, run)
  {
    if a != [] {
      TriedSame(a[..|a| - 1], b[..|b| - 1], run);
    }
  }

  lemma {:induction false} TriedNone(attempts: Attempts, run: nat)
    requires forall i :: 0 <= i < |attempts| ==> attempts[i].run != run
    ensures Tried(attempts, run) == []
  {
    if attempts != [] {
      TriedNone(attempts[..|attempts| - 1], run);
    }
  }

  /** The run tries its ports in order: those tried and those left make up the list, and without a server none is
      left out. */
  ghost predicate OnTrack(s: Extension, ports: seq<Port>) {
    !s.manualDisconnect &&
    if s.runId in s.scans then Tried(s.attempts, s.runId) + s.scans[s.runId].rest == ports
    else Tried(s.attempts, s.runId) <= ports && (NoServer(s) ==> Tried(s.attempts, s.runId) == ports)
  }

  /** What a run event does to attempts and scans, unless it goes on with a scan. */
  ghost predicate SameTrack(s: Extension, t: Extension) {
    && t.runId == s.runId && t.scans == s.scans && (t.manualDisconnect ==> s.manualDisconnect)
    && |t.attempts| == |s.attempts| && Grown(s.attempts, t.attempts)
    && forall i :: 0 <= i < |s.attempts| ==> t.attempts[i].port == s.attempts[i].port
  }

  lemma SameTrackStays(s: Extension, t: Extension, ports: seq<Port>)
    requires OnTrack(s, ports) && SameTrack(s, t)
    ensures OnTrack(t, ports)
  {
    TriedSame(s.attempts, t.attempts, s.runId);
    if NoServer(t) {
      ServerStays(s, t);
    }
  }

  /** Attempt i is replaced by one of the same run and port that keeps its result; run, scans and setting stay. */
  ghost predicate Touched(s: Extension, t: Extension, i: nat)
    requires i < |s.attempts|
  {
    && t.runId == s.runId && t.scans == s.scans && (t.manualDisconnect ==> s.manualDisconnect)
    && t.autoConnect == s.autoConnect && |t.attempts| == |s.attempts| && t.attempts == s.attempts[i := t.attempts[i]]
    && t.attempts[i].run == s.attempts[i].run && t.attempts[i].port == s.attempts[i].port
    && (s.attempts[i].result.Some? ==> t.attempts[i].result == s.attempts[i].result)
  }

  lemma TouchedTrack(s: Extension, t: Extension, i: nat)
    requires i < |s.attempts| && Touched(s, t, i)
    ensures SameTrack(s, t)
  {
  }

  lemma OpenTouches(s: Extension, i: nat)
    requires i < |s.attempts|
    ensures Touched(s, OnOpen(s, i), i) && Touched(s, OnHello(s, i), i)
  {
  }

  lemma FailTouches(s: Extension, i: nat)
    requires i < |s.attempts|
    ensures Touched(s, OnError(s, i), i) && Touched(s, OnTimeout(s, i), i)
  {
  }

  lemma CloseTouches(s: Extension, i: nat)
    requires i < |s.attempts|
    ensures Touched(s, OnClose(s, i), i)
  {
  }

  lemma GenerationTouches(s: Extension, i: nat, api: Api)
    requires i < |s.attempts| && s.attempts[i].result.None?
    ensures Touched(s, NextGeneration(s, i, api), i)
  {
  }

  lemma FallbackTouches(s: Extension, i: nat, api: Api)
    requires i < |s.attempts|
    ensures Touched(s, OnFallback(s, i, api), i)
  {
    if !(s.attempts[i].result.Some? || s.attempts[i].run != s.runId || s.attempts[i].isOpen) {
      GenerationTouches(Released(s, i), i, api);
    }
  }

  /** An event of attempt i touches at most that attempt. */
  lemma AttemptTouches(s: Extension, e: Event)
    requires OfAttempt(e) && e.attempt < |s.attempts|
    ensures Touched(s, Step(s, e), e.attempt)
  {
    match e
    case SocketOpened(i, _) => OpenTouches(s, i);
    case MessageArrived(i, _, _) => OpenTouches(s, i);
    case SocketClosed(i, _) => CloseTouches(s, i);
    case SocketErrored(i, _) => FailTouches(s, i);
    case AttemptTimeout(i) => FailTouches(s, i);
    case FallbackFires(i, api) => FallbackTouches(s, i, api);
  }

  lemma AwayFromAttempts(s: Extension, e: Event)
    requires OfAttempt(e) && e.attempt >= |s.attempts|
    ensures Step(s, e) == s
  {
  }

  lemma EventTrack(s: Extension, e: Event)
    requires RunEvent(e) && !e.ScanResumes?
    ensures SameTrack(s, Step(s, e))
  {
    if e.ConnectionFails? {
      RecoverGrows(s);
    } else if e.attempt < |s.attempts| {
      AttemptTouches(s, e);
      TouchedTrack(s, Step(s, e), e.attempt);
    } else {
      AwayFromAttempts(s, e);
    }
  }

  lemma StartTrack(s: Extension, port: Port, rest: seq<Port>, api: Api, ports: seq<Port>)
    requires !s.manualDisconnect && Tried(s.attempts, s.runId) + ([port] + rest) == ports
    ensures OnTrack(StartAttempt(s, s.runId, port, api).(scans := s.scans[s.runId := Scan(|s.attempts|, rest)]), ports)
  {
    var t := StartAttempt(s, s.runId, port, api);
    assert t.attempts[..|s.attempts|] == s.attempts;
    assert Tried(t.attempts, s.runId) == Tried(s.attempts, s.runId) + [port];
  }

  lemma EndTrack(s: Extension, ports: seq<Port>)
    requires OnTrack(s, ports) && s.runId in s.scans
    requires s.scans[s.runId].rest == [] || !NoServer(s)
    ensures OnTrack(EndScan(s, s.runId), ports)
  {
    var t := EndScan(s, s.runId);
    assert t.attempts == s.attempts && t.runId == s.runId && t.runId !in t.scans && !t.manualDisconnect;
    assert NoServer(t) <==> NoServer(s);
  }

  lemma ScanTrack(s: Extension, run: nat, api: Api, ports: seq<Port>)
    requires Inv(s) && OnTrack(s, ports)
    ensures OnTrack(Step(s, ScanResumes(run, api)), ports)
  {
    if run in s.scans && s.scans[run].attempt < |s.attempts| && s.attempts[s.scans[run].attempt].result.Some? {
      var scan := s.scans[run];
      assert ScanOk(s.attempts, s.runId, run, scan);
      if run != s.runId {
        OtherTrack(s, run, api, ports);
      } else if s.attempts[scan.attempt].result == Some(true) {
        EndTrack(s.(preferredPort := s.attempts[scan.attempt].port), ports);
      } else if scan.rest == [] {
        EndTrack(s, ports);
      } else {
        assert scan.rest == [scan.rest[0]] + scan.rest[1..];
        StartTrack(s, scan.rest[0], scan.rest[1..], api, ports);
      }
    }
  }

  lemma OtherTrack(s: Extension, run: nat, api: Api, ports: seq<Port>)
    requires OnTrack(s, ports) && run != s.runId && run in s.scans && s.scans[run].attempt < |s.attempts|
    ensures OnTrack(Resume(s, run, api), ports)
  {
    OtherScanEffect(s, run, api);
    assert NoServer(Resume(s, run, api)) <==> NoServer(s);
  }

  lemma {:induction false} RunTrack(s: Extension, events: seq<Event>, ports: seq<Port>)
    requires Inv(s) && OnTrack(s, ports) && RunEvents(events)
    ensures Inv(Run(s, events)) && OnTrack(Run(s, events), ports)
  {
    if events != [] {
      var init, e := events[..|events| - 1], events[|events| - 1];
      RunTrack(s, init, ports);
      StepKeepsInv(Run(s, init), e);
      if e.ScanResumes? {
        ScanTrack(Run(s, init), e.run, e.api, ports);
      } else {
        EventTrack(Run(s, init), e);
        SameTrackStays(Run(s, init), Step(Run(s, init), e), ports);
      }
    }
  }

  /** Main result on the scan: over every order of the events of a run, the ports tried are those of the list in
      order, each once, and a run that ends without a server has tried them all. */
  lemma PortsInOrder(s: Extension, ports: seq<Port>, api: Api, events: seq<Event>)
    requires Inv(s) && ports != [] && RunEvents(events)
    ensures var start := BeginRun(s, ports, api);
      var t := Run(start, events);
      && t.runId == start.runId && Tried(t.attempts, t.runId) <= ports
      && (NoServer(t) && t.runId !in t.scans ==> Tried(t.attempts, t.runId) == ports)
  {
    BeginRunKeepsInv(s, ports, api);
    BeginTrack(s, ports, api);
    RunTrack(BeginRun(s, ports, api), events, ports);
    RunKeepsRun(BeginRun(s, ports, api), events);
  }

  lemma BeginTrack(s: Extension, ports: seq<Port>, api: Api)
    requires Inv(s) && ports != []
    ensures OnTrack(BeginRun(s, ports, api), ports)
  {
    var ready := NextRun(s);
    TriedNone(ready.attempts, ready.runId);
    assert ports == [] + ([ports[0]] + ports[1..]);
    StartTrack(ready, ports[0], ports[1..], api, ports);
  }

  lemma {:induction false} RunKeepsRun(s: Extension, events: seq<Event>)
    requires RunEvents(events)
    ensures Run(s, events).runId == s.runId
  {
    if events != [] {
      var init := events[..|events| - 1];
      RunKeepsRun(s, init);
      AttemptsGrow(Run(s, init), events[|events| - 1]);
    }
  }
}
