/** Which backends are up. The daemon asks its active backend for its state before it connects
    another one; a backend can be in ERROR while its worker or process still runs. */
module LiveBackends {
  import opened ReconnectSpec

  ghost predicate Up(s: Server, k: Kind) {
    k in s.running || Live(s.states.Get(k))
  }

  ghost predicate OneUp(s: Server) {
    forall j, k :: Up(s, j) && Up(s, k) ==> j == k
  }

  /** A live backend has something running; with WireGuard it is the same thing. */
  ghost predicate WorkersKnown(s: Server) {
    && (forall k :: Live(s.states.Get(k)) ==> k in s.running)
    && (WireGuardBackend in s.running ==> Live(s.states.wireGuard))
  }

  /** The message calls a backend's Connect, and that brings the backend up. */
  predicate BringsUp(s: Server, e: Event) {
    Called(s, e).Some? && !Refuses(s, Called(s, e).value) && Live(e.outcome.state)
  }

  /** ... while another one still runs. This can be told before the call is made. */
  ghost predicate Overlaps(s: Server, e: Event) {
    BringsUp(s, e) && exists j :: j in s.running && j != Called(s, e).value
  }

  /** A message that calls no Connect starts nothing. */
  lemma NothingStarts(s: Server, e: Event)
    requires Called(s, e).None? && Possible(s, e) && WorkersKnown(s)
    ensures WorkersKnown(Handle(s, e)) && Handle(s, e).running <= s.running
  {
    hide PassesPathCheck, StartCountdown, CallConnect, Backends.Get, Backends.Set, Live;
    NotLive();
    WireGuardState(s.states);
    WireGuardState(Handle(s, e).states);
    match e
    case ConnectRequest(p, readable, o) => UnlessAccepted(s, e);
    case DisconnectRequest => GetOfSet(s.states, s.active, Disconnected);
    case Status(v, timerOk) => CountdownStartsNothing(s, timerOk);
    case Tick(o, timerOk) => EarlyTick(s, e);
    case Report(k, v) => ReportStartsNothing(s, k, v);
    case Ends(k, v) => GetOfSet(s.states, k, v);
  }

  lemma ReportStartsNothing(s: Server, k: Kind, v: VpnState)
    requires k in s.running && CanReport(k, v) && WorkersKnown(s)
    ensures WorkersKnown(Handle(s, Report(k, v))) && Handle(s, Report(k, v)).running == s.running
  {
    hide Backends.Get, Backends.Set, Live;
    var reported := Reported(k, s.states.Get(k), v);
    var t := Handle(s, Report(k, v));
    GetOfSet(s.states, k, reported);
    NotLive();
    WireGuardState(s.states);
    WireGuardState(t.states);
    assert t.states == s.states.Set(k, reported);
  }

  lemma CountdownStartsNothing(s: Server, timerOk: bool)
    ensures var t := StartCountdown(s, timerOk).0; t.states == s.states && t.running == s.running
  {
  }

  lemma NotLive()
    ensures !Live(Disconnected) && !Live(Error) && Live(Connected)
  {
  }

  lemma WireGuardState(b: Backends)
    ensures b.Get(WireGuardBackend) == b.wireGuard
  {
  }

  lemma UnlessAccepted(s: Server, e: Event)
    requires e.ConnectRequest? && !Accepted(s, e)
    ensures var t := Handle(s, e); t.states == s.states && t.running == s.running
  {
    hide PassesPathCheck;
  }

  lemma EarlyTick(s: Server, e: Event)
    requires e.Tick? && Called(s, e).None?
    ensures var t := Handle(s, e); t.states == s.states && t.running == s.running
  {
  }

  /** A message that calls a Connect changes the backends as that call does. */
  lemma OnlyTheCall(s: Server, e: Event)
    requires Called(s, e).Some?
    ensures var k, t := Called(s, e).value, Handle(s, e);
            var u := CallConnect(s.(active := k), e.outcome).0;
            t.states == u.states && t.running == u.running
  {
    hide PassesPathCheck, Delay, Backends.Get, Backends.Set, Live;
  }

  lemma CallKeepsWorkers(s: Server, k: Kind, o: Outcome)
    requires WorkersKnown(s) && PossibleOutcome(k in s.running, o)
    ensures var u := CallConnect(s.(active := k), o).0;
            && WorkersKnown(u)
            && (if !Refuses(s, k) && Live(o.state) then u.running == s.running + {k} else u.running <= s.running)
  {
    hide Backends.Get, Backends.Set, Live;
    GetOfSet(s.states, k, o.state);
    GetOfSet(s.states, k, AfterRefusal(k, s.states.Get(k)));
    NotLive();
    WireGuardState(s.states);
    WireGuardState(CallConnect(s.(active := k), o).0.states);
  }

  lemma StepWorkers(s: Server, e: Event)
    requires WorkersKnown(s) && Possible(s, e)
    ensures WorkersKnown(Handle(s, e))
    ensures if BringsUp(s, e) then Handle(s, e).running == s.running + {Called(s, e).value}
            else Handle(s, e).running <= s.running
  {
    hide Handle, CallConnect, Refuses, PossibleOutcome, WorkersKnown, Live;
    if Called(s, e).Some? {
      var k := Called(s, e).value;
      PossibleCall(s, e);
      OnlyTheCall(s, e);
      CallKeepsWorkers(s, k, e.outcome);
      SameBackends(CallConnect(s.(active := k), e.outcome).0, Handle(s, e));
    } else {
      NothingStarts(s, e);
    }
  }

  lemma PossibleCall(s: Server, e: Event)
    requires Called(s, e).Some? && Possible(s, e)
    ensures PossibleOutcome(Called(s, e).value in s.running, e.outcome)
  {
    hide Accepted, Counts;
  }

  lemma SameBackends(u: Server, t: Server)
    requires WorkersKnown(u) && t.states == u.states && t.running == u.running
    ensures WorkersKnown(t)
  {
  }

  /** What is up is what runs. */
  lemma UpIsRunning(s: Server)
    requires WorkersKnown(s)
    ensures OneUp(s) <==> forall j, k :: j in s.running && k in s.running ==> j == k
  {
    assert forall k :: Up(s, k) <==> k in s.running;
  }

  /** One message: a second backend comes up exactly when a Connect brings one up while
      another one still runs. */
  lemma StepOneUp(s: Server, e: Event)
    requires WorkersKnown(s) && Possible(s, e) && OneUp(s)
    ensures OneUp(Handle(s, e)) <==> !Overlaps(s, e)
  {
    hide Handle, BringsUp, Possible, WorkersKnown;
    StepWorkers(s, e);
    UpIsRunning(s);
    UpIsRunning(Handle(s, e));
  }

  lemma {:induction false} RunWorkers(p: Profile, made: Made, states: seq<Server>, events: seq<Event>, n: nat)
    requires IsRun(p, made, states, events) && n < |states|
    ensures WorkersKnown(states[n])
    ensures n == 0 ==> OneUp(states[n])
  {
    hide Handle, Possible;
    if n > 0 {
      RunWorkers(p, made, states, events, n - 1);
      StepWorkers(states[n - 1], events[n - 1]);
      assert states[n - 1 + 1] == Handle(states[n - 1], events[n - 1]);
    }
  }

  lemma {:induction false} OneUpWhileSeparate(p: Profile, made: Made, states: seq<Server>, events: seq<Event>, n: nat)
    requires IsRun(p, made, states, events) && n < |states|
    requires forall i :: 0 <= i < n ==> !Overlaps(states[i], events[i])
    ensures OneUp(states[n])
  {
    hide Handle, Possible, Overlaps, OneUp;
    RunWorkers(p, made, states, events, n);
    if n > 0 {
      OneUpWhileSeparate(p, made, states, events, n - 1);
      RunWorkers(p, made, states, events, n - 1);
      StepOneUp(states[n - 1], events[n - 1]);
      assert states[n - 1 + 1] == Handle(states[n - 1], events[n - 1]);
    }
  }

  /** Over any run, reports from behind an ERROR included: at most one backend runs or is
      live in every state if and only if no Connect that brings a backend up is made while
      another one still runs. */
  lemma OneUpExactly(p: Profile, made: Made, states: seq<Server>, events: seq<Event>)
    requires IsRun(p, made, states, events)
    ensures (forall n :: 0 <= n < |states| ==> OneUp(states[n]))
            <==> (forall i :: 0 <= i < |events| ==> !Overlaps(states[i], events[i]))
  {
    hide Handle, Possible, Overlaps, OneUp;
    if forall n :: 0 <= n < |states| ==> OneUp(states[n]) {
      forall i | 0 <= i < |events|
        ensures !Overlaps(states[i], events[i])
      {
        RunWorkers(p, made, states, events, i);
        StepOneUp(states[i], events[i]);
        assert states[i + 1] == Handle(states[i], events[i]);
        assert OneUp(states[i + 1]);
      }
    }
    if forall i :: 0 <= i < |events| ==> !Overlaps(states[i], events[i]) {
      forall n | 0 <= n < |states|
        ensures OneUp(states[n])
      {
        OneUpWhileSeparate(p, made, states, events, n);
      }
    }
  }

  // Two runs in which two backends are live.

  ghost predicate TwoLive(s: Server) {
    exists j, k :: j != k && Live(s.states.Get(j)) && Live(s.states.Get(k))
  }

  /** openvpn reports a failed authentication and goes on, a WireGuard profile is connected,
      and openvpn gets through after all. */
  const AUTH_FAILED: seq<Event> := [
    ConnectRequest(PLAIN, true, Outcome(true, Connecting, true)), Report(OpenVpnBackend, Error),
    ConnectRequest(Profile(WireGuard, "/v"), true, Outcome(true, Connecting, true)),
    Report(OpenVpnBackend, Connected)]

  ghost predicate Stands(s: Server, active: Kind, states: Backends, running: set<Kind>) {
    s.active == active && s.states == states && s.running == running && s.made.wireGuard
  }

  lemma NothingYet(s: Server, events: seq<Event>)
    ensures Admissible(s, events[..0]) && After(s, events[..0]) == s
  {
  }

  lemma FirstConnect(s: Server)
    requires Stands(s, OpenVpnBackend, Backends(Disconnected, Disconnected, Disconnected), {})
    ensures Possible(s, AUTH_FAILED[0])
    ensures Stands(Handle(s, AUTH_FAILED[0]), OpenVpnBackend, Backends(Connecting, Disconnected, Disconnected), {OpenVpnBackend})
  {
    hide PassesPathCheck;
    PlainPathOk();
  }

  lemma Failure(s: Server)
    requires Stands(s, OpenVpnBackend, Backends(Connecting, Disconnected, Disconnected), {OpenVpnBackend})
    ensures Possible(s, AUTH_FAILED[1])
    ensures Stands(Handle(s, AUTH_FAILED[1]), OpenVpnBackend, Backends(Error, Disconnected, Disconnected), {OpenVpnBackend})
  {
  }

  lemma ConnectElsewhere(s: Server)
    requires Stands(s, OpenVpnBackend, Backends(Error, Disconnected, Disconnected), {OpenVpnBackend})
    ensures Possible(s, AUTH_FAILED[2]) && Overlaps(s, AUTH_FAILED[2])
    ensures Stands(Handle(s, AUTH_FAILED[2]), WireGuardBackend, Backends(Error, Connecting, Disconnected),
                   {OpenVpnBackend, WireGuardBackend})
  {
    hide PassesPathCheck;
    PlainPathOk();
    assert PassesPathCheck(Profile(WireGuard, "/v"), true) by { OtherPathOk(); }
    assert OpenVpnBackend in s.running;
  }

  lemma OtherPathOk()
    ensures PassesPathCheck(Profile(WireGuard, "/v"), true)
  {
  }

  lemma ThroughAfterAll(s: Server)
    requires Stands(s, WireGuardBackend, Backends(Error, Connecting, Disconnected), {OpenVpnBackend, WireGuardBackend})
    ensures Possible(s, AUTH_FAILED[3]) && TwoLive(Handle(s, AUTH_FAILED[3]))
  {
    var t := Handle(s, AUTH_FAILED[3]);
    assert t.states == Backends(Connected, Connecting, Disconnected);
    assert Live(t.states.Get(OpenVpnBackend)) && Live(t.states.Get(WireGuardBackend));
  }

  /** A failed authentication sets ERROR and leaves openvpn running: a run of the daemon that
      ends with two live backends. The fatal case is the same. */
  lemma FailedLoginOverlaps(p: Profile, made: Made) returns (states: seq<Server>, events: seq<Event>)
    requires made.wireGuard
    ensures IsRun(p, made, states, events) && |events| == 4
    ensures Overlaps(states[2], events[2]) && TwoLive(states[4])
  {
    hide Handle, Possible, Admissible, After, Stands, Overlaps, TwoLive;
    var s := Start(p, made);
    assert Stands(s, OpenVpnBackend, Backends(Disconnected, Disconnected, Disconnected), {}) by { StandsAtStart(p, made); }
    NothingYet(s, AUTH_FAILED);
    FirstConnect(s);
    AfterNext(s, AUTH_FAILED, 0);
    Failure(After(s, AUTH_FAILED[..1]));
    AfterNext(s, AUTH_FAILED, 1);
    ConnectElsewhere(After(s, AUTH_FAILED[..2]));
    AfterNext(s, AUTH_FAILED, 2);
    ThroughAfterAll(After(s, AUTH_FAILED[..3]));
    AfterNext(s, AUTH_FAILED, 3);
    assert AUTH_FAILED[..4] == AUTH_FAILED;
    states, events := TraceOf(p, made, AUTH_FAILED);
  }

  lemma StandsAtStart(p: Profile, made: Made)
    requires made.wireGuard
    ensures Stands(Start(p, made), OpenVpnBackend, Backends(Disconnected, Disconnected, Disconnected), {})
  {
  }

  const REFUSED := Outcome(false, Error, false)

  /** A Tailscale session comes up, a stale drop starts a countdown, its attempt is refused
      by the live backend, the user connects elsewhere, and the worker gets through. */
  const OUTLIVED: seq<Event> := [
    ConnectRequest(Profile(Tailscale, ""), true, Outcome(true, Connecting, true)), Status(Disconnected, true),
    Tick(REFUSED, true), Tick(REFUSED, true), Tick(REFUSED, true), Tick(REFUSED, true), Tick(REFUSED, true),
    ConnectRequest(PLAIN, true, Outcome(true, Connecting, true)), Report(TailscaleBackend, Connected)]

  ghost predicate Counting(s: Server, left: nat) {
    && s.made.tailscale && s.active == TailscaleBackend && s.profile.backendType == Tailscale
    && s.states == Backends(Disconnected, Disconnected, Connecting) && s.running == {TailscaleBackend}
    && s.timer && !s.userDisconnect && s.secondsLeft == left && s.attempt == 1
  }

  lemma CountingStarts(p: Profile, made: Made)
    requires made.tailscale
    ensures Admissible(Start(p, made), OUTLIVED[..2]) && Counting(After(Start(p, made), OUTLIVED[..2]), 5)
  {
    hide Admissible, After, Occurs;
    var s := Start(p, made);
    NothingYet(s, OUTLIVED);
    AfterNext(s, OUTLIVED, 0);
    AfterNext(s, OUTLIVED, 1);
  }

  lemma {:induction false} CountingGoesOn(p: Profile, made: Made, k: nat)
    requires made.tailscale && k <= 4
    ensures Admissible(Start(p, made), OUTLIVED[..k + 2])
    ensures Counting(After(Start(p, made), OUTLIVED[..k + 2]), 5 - k)
  {
    hide Admissible, After;
    if k == 0 {
      CountingStarts(p, made);
    } else {
      CountingGoesOn(p, made, k - 1);
      AfterNext(Start(p, made), OUTLIVED, k + 1);
    }
  }

  /** A Tailscale backend in ERROR whose worker still runs, and what the others do. */
  ghost predicate Hidden(s: Server, active: Kind, openVpn: VpnState) {
    && s.states == Backends(openVpn, Disconnected, Error) && s.active == active
    && s.running == (if active == OpenVpnBackend then {OpenVpnBackend, TailscaleBackend} else {TailscaleBackend})
  }

  lemma LastSecond(s: Server)
    requires Counting(s, 1)
    ensures Possible(s, Tick(REFUSED, true))
    ensures Hidden(Handle(s, Tick(REFUSED, true)), TailscaleBackend, Disconnected)
  {
  }

  lemma ElsewhereAfterError(s: Server)
    requires Hidden(s, TailscaleBackend, Disconnected)
    ensures Possible(s, OUTLIVED[7]) && Overlaps(s, OUTLIVED[7])
    ensures Hidden(Handle(s, OUTLIVED[7]), OpenVpnBackend, Connecting)
  {
    hide PassesPathCheck;
    PlainPathOk();
    assert TailscaleBackend in s.running;
  }

  lemma WorkerReports(s: Server)
    requires Hidden(s, OpenVpnBackend, Connecting)
    ensures Possible(s, OUTLIVED[8]) && TwoLive(Handle(s, OUTLIVED[8]))
  {
    var t := Handle(s, OUTLIVED[8]);
    assert t.states == Backends(Connecting, Disconnected, Connected);
    assert Live(t.states.Get(OpenVpnBackend)) && Live(t.states.Get(TailscaleBackend));
  }

  /** A refused Connect sets ERROR and leaves the Tailscale worker running: another run that
      ends with two live backends. */
  lemma RefusalOverlaps(p: Profile, made: Made) returns (states: seq<Server>, events: seq<Event>)
    requires made.tailscale
    ensures IsRun(p, made, states, events) && |events| == 9
    ensures Overlaps(states[7], events[7]) && TwoLive(states[9])
  {
    hide Handle, Possible, Admissible, After, Counting, Hidden, Overlaps, TwoLive;
    var s := Start(p, made);
    CountingGoesOn(p, made, 4);
    LastSecond(After(s, OUTLIVED[..6]));
    AfterNext(s, OUTLIVED, 6);
    ElsewhereAfterError(After(s, OUTLIVED[..7]));
    AfterNext(s, OUTLIVED, 7);
    WorkerReports(After(s, OUTLIVED[..8]));
    AfterNext(s, OUTLIVED, 8);
    assert OUTLIVED[..9] == OUTLIVED;
    states, events := TraceOf(p, made, OUTLIVED);
  }
}
