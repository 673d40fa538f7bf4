/** The daemon's connection logic as a machine over its messages: backend selection,
    auto-reconnect with a countdown and a retry budget, and user cancellation. */
module ReconnectSpec {
  import opened Options

  datatype VpnState = Disconnected | Connecting | Authenticating | Connected | Reconnecting | Error

  /** Profiles can name a fourth type that has no backend of its own. */
  datatype BackendType = OpenVpn | WireGuard | Ipsec | Tailscale

  datatype Kind = OpenVpnBackend | WireGuardBackend | TailscaleBackend

  datatype Profile = Profile(backendType: BackendType, configPath: string)

  const MAX_ATTEMPTS: nat := 5

  /** 5 seconds, doubling, capped at 60. */
  function Delay(attempt: int): (d: nat)
    ensures 5 <= d <= 60
  {
    if attempt <= 1 then 5 else if attempt == 2 then 10 else if attempt == 3 then 20
    else if attempt == 4 then 40 else 60
  }

  /** The countdown seconds the attempts after `attempt` can still take. */
  function Remaining(attempt: nat): nat
    decreases MAX_ATTEMPTS - attempt
  {
    if attempt >= MAX_ATTEMPTS then 0 else Delay(attempt + 1) + Remaining(attempt + 1)
  }

  predicate Live(v: VpnState) {
    v != Disconnected && v != Error
  }

  /** The three backends' own states. */
  datatype Backends = Backends(openVpn: VpnState, wireGuard: VpnState, tailscale: VpnState) {
    function Get(k: Kind): VpnState {
      match k case OpenVpnBackend => openVpn case WireGuardBackend => wireGuard case TailscaleBackend => tailscale
    }

    function Set(k: Kind, v: VpnState): Backends {
      match k
      case OpenVpnBackend => this.(openVpn := v)
      case WireGuardBackend => this.(wireGuard := v)
      case TailscaleBackend => this.(tailscale := v)
    }
  }

  /** Which of the two optional backends the daemon has; the OpenVPN one is always there. */
  datatype Made = Made(wireGuard: bool, tailscale: bool)

  function Select(t: BackendType, made: Made): Kind {
    match t
    case WireGuard => if made.wireGuard then WireGuardBackend else OpenVpnBackend
    case Tailscale => if made.tailscale then TailscaleBackend else OpenVpnBackend
    case _ => OpenVpnBackend
  }

  predicate OccursAt(sub: string, s: string, i: nat) {
    i + |sub| <= |s| && s[i..i + |sub|] == sub
  }

  predicate Occurs(sub: string, s: string) {
    exists i :: 0 <= i <= |s| && OccursAt(sub, s, i)
  }

  /** Absolute, without a parent segment, readable. */
  predicate PathOk(path: string, readable: bool) {
    && |path| > 0 && path[0] == '/'
    && !Occurs("/../", path)
    && !(|path| >= 3 && path[|path| - 3..] == "/..")
    && readable
  }

  predicate PassesPathCheck(p: Profile, readable: bool) {
    (p.backendType == OpenVpn || p.backendType == WireGuard) ==> PathOk(p.configPath, readable)
  }

  /** What a backend's Connect does unless it refuses: its answer, its state afterwards, and
      whether a worker or process of it runs afterwards. */
  datatype Outcome = Outcome(ok: bool, state: VpnState, runs: bool)

  datatype Event =
    | ConnectRequest(profile: Profile, readable: bool, outcome: Outcome)
    | DisconnectRequest
    | Status(state: VpnState, timerOk: bool)
    | Tick(outcome: Outcome, timerOk: bool)
    | Report(kind: Kind, state: VpnState)
    | Ends(kind: Kind, state: VpnState)

  /** The daemon's fields, the backends' states and which of them have a worker or process
      that is not cleaned up, and counts the properties speak of. */
  datatype Server = Server(
    made: Made, active: Kind, states: Backends, running: set<Kind>, profile: Profile, armed: bool, userDisconnect: bool,
    attempt: nat, secondsLeft: nat, timer: bool, lastState: VpnState,
    // Connect calls so far; countdowns started and counted seconds since the last reset of
    // the budget; seconds a countdown still had to run at that reset.
    connects: nat, countdowns: nat, ticks: nat, leftover: nat)

  function Start(profile: Profile, made: Made): Server {
    Server(made, OpenVpnBackend, Backends(Disconnected, Disconnected, Disconnected), {}, profile, false, false,
           0, 0, false, Disconnected, 0, 0, 0, 0)
  }

  function Cancel(s: Server): Server {
    s.(timer := false, secondsLeft := 0)
  }

  /** A live backend refuses; the Tailscale one asks for its worker instead. */
  predicate Refuses(s: Server, k: Kind) {
    if k == TailscaleBackend then k in s.running else Live(s.states.Get(k))
  }

  /** What a refused Connect leaves: the Tailscale backend reports an error, the others stay
      as they are. */
  function AfterRefusal(k: Kind, v: VpnState): VpnState {
    if k == TailscaleBackend then Error else v
  }

  function CallConnect(s: Server, o: Outcome): (Server, bool) {
    if Refuses(s, s.active)
    then (s.(connects := s.connects + 1,
             states := s.states.Set(s.active, AfterRefusal(s.active, s.states.Get(s.active)))), false)
    else (s.(connects := s.connects + 1, states := s.states.Set(s.active, o.state),
             running := if o.runs then s.running + {s.active} else s.running - {s.active}), o.ok)
  }

  /** The countdown for the next attempt, unless it is unwanted or the budget is spent. */
  function StartCountdown(s: Server, timerOk: bool): (Server, bool) {
    if s.userDisconnect || !s.armed || s.attempt >= MAX_ATTEMPTS then (s, false)
    else if !timerOk then (Cancel(s).(attempt := s.attempt + 1), false)
    else (s.(attempt := s.attempt + 1, secondsLeft := Delay(s.attempt + 1), timer := true,
             countdowns := s.countdowns + 1), true)
  }

  function Arm(s: Server, p: Profile): Server {
    Cancel(s).(profile := p, userDisconnect := false, armed := true, attempt := 0,
               countdowns := 0, ticks := 0, leftover := 0)
  }

  predicate Accepted(s: Server, e: Event) {
    e.ConnectRequest? && !Live(s.states.Get(s.active)) && PassesPathCheck(e.profile, e.readable)
  }

  function HandleConnect(s: Server, p: Profile, readable: bool, o: Outcome): Server {
    if Live(s.states.Get(s.active)) then s
    else
      var selected := s.(active := Select(p.backendType, s.made));
      if !PassesPathCheck(p, readable) then selected else CallConnect(Arm(selected, p), o).0
  }

  /** Where nothing runs there is nothing to wait for; the OpenVPN backend waits anyway. */
  predicate SettlesAtOnce(s: Server) {
    s.active != OpenVpnBackend && s.active !in s.running
  }

  function HandleDisconnect(s: Server): Server {
    var t := Cancel(s).(userDisconnect := true,
                        states := if SettlesAtOnce(s) then s.states.Set(s.active, Disconnected) else s.states);
    if s.timer then t.(lastState := Disconnected) else t
  }

  function HandleStatus(s: Server, v: VpnState, timerOk: bool): Server {
    var (t, started) := if v == Disconnected then StartCountdown(s, timerOk) else (s, false);
    var shown := if started then Reconnecting else v;
    var u := t.(lastState := shown);
    if shown == Connected && shown != s.lastState
    then u.(attempt := 0, countdowns := 0, ticks := 0, leftover := u.secondsLeft) else u
  }

  predicate Counts(s: Server) {
    s.timer && !s.userDisconnect
  }

  function HandleTick(s: Server, o: Outcome, timerOk: bool): Server {
    if !Counts(s) then s
    else
      var t := s.(ticks := s.ticks + 1);
      if s.secondsLeft > 1 then t.(secondsLeft := s.secondsLeft - 1)
      else
        var selected := Cancel(t).(active := Select(s.profile.backendType, s.made));
        var (u, ok) := CallConnect(selected, o);
        if ok then u else StartCountdown(u, timerOk).0
  }

  function Handle(s: Server, e: Event): Server {
    match e
    case ConnectRequest(p, readable, o) => HandleConnect(s, p, readable, o)
    case DisconnectRequest => HandleDisconnect(s)
    case Status(v, timerOk) => HandleStatus(s, v, timerOk)
    case Tick(o, timerOk) => HandleTick(s, o, timerOk)
    case Report(k, v) => s.(states := s.states.Set(k, Reported(k, s.states.Get(k), v)))
    case Ends(k, v) => s.(states := s.states.Set(k, v), running := s.running - {k})
  }

  /** The state after a report: OpenVPN's farewell does not hide an error. */
  function Reported(k: Kind, current: VpnState, v: VpnState): VpnState {
    if k == OpenVpnBackend && v == Disconnected && current == Error then Error else v
  }

  /** What the worker of a backend can report while it runs. */
  predicate CanReport(k: Kind, v: VpnState) {
    match k
    case OpenVpnBackend => true
    case WireGuardBackend => v == Connected
    case TailscaleBackend => v == Authenticating || v == Connected
  }

  /** The backend whose Connect a message calls. */
  function Called(s: Server, e: Event): (k: Option<Kind>)
    ensures k.Some? ==> e.ConnectRequest? || e.Tick?
  {
    match e
    case ConnectRequest(p, _, _) => if Accepted(s, e) then Some(Select(p.backendType, s.made)) else None
    case Tick(_, _) =>
      if Counts(s) && s.secondsLeft <= 1 then Some(Select(s.profile.backendType, s.made)) else None
    case _ => None
  }

  /** A Connect that fails does not make the backend live, a live backend has something
      running, and only what ran before can run on in a backend that is not live. */
  predicate PossibleOutcome(ran: bool, o: Outcome) {
    (!o.ok ==> !Live(o.state)) && (Live(o.state) ==> o.runs) && (o.runs ==> Live(o.state) || ran)
  }

  /** Only what runs reports, and it may report any state it knows at any time, ERROR behind
      it or not. Status messages may be stale: any state, any time. */
  predicate Possible(s: Server, e: Event) {
    match e
    case ConnectRequest(_, _, o) => Called(s, e).Some? ==> PossibleOutcome(Called(s, e).value in s.running, o)
    case Tick(o, _) => Called(s, e).Some? ==> PossibleOutcome(Called(s, e).value in s.running, o)
    case Report(k, v) => k in s.running && CanReport(k, v)
    case Ends(k, v) => k in s.running && !Live(v)
    case _ => true
  }

  /** A backend leaves Disconnected or Error only through its own Connect. */
  predicate Obedient(s: Server, e: Event) {
    e.Report? && Live(e.state) ==> Live(s.states.Get(e.kind))
  }

  /** A run of the daemon: the state before and after every message. */
  ghost predicate IsRun(p: Profile, made: Made, states: seq<Server>, events: seq<Event>) {
    && |states| == |events| + 1 && states[0] == Start(p, made)
    && forall i :: 0 <= i < |events| ==> Possible(states[i], events[i]) && states[i + 1] == Handle(states[i], events[i])
  }

  /** Seconds this and the remaining countdowns can still take. */
  function Potential(s: Server): nat {
    s.secondsLeft + Remaining(s.attempt)
  }

  const BUDGET: nat := 135

  ghost predicate BudgetInv(s: Server) {
    && s.attempt <= MAX_ATTEMPTS && s.countdowns <= s.attempt
    && (s.timer <==> s.secondsLeft > 0) && (s.timer ==> s.armed && !s.userDisconnect)
    && s.secondsLeft <= 60 && s.leftover <= 60
    && s.ticks + Potential(s) <= BUDGET + s.leftover
  }

  /** At most one backend is live; it is the active one and the one the stored profile
      selects. */
  ghost predicate LiveInv(s: Server) {
    forall k :: Live(s.states.Get(k)) ==> k == s.active && s.armed && k == Select(s.profile.backendType, s.made)
  }

  lemma TotalBudget()
    ensures Remaining(0) == BUDGET
  {
    assert Remaining(4) == 60;
    assert Remaining(3) == 100;
    assert Remaining(2) == 120;
    assert Remaining(1) == 130;
  }

  lemma CountdownSpendsBudget(s: Server, timerOk: bool)
    requires s.attempt < MAX_ATTEMPTS
    ensures Remaining(s.attempt) == Delay(s.attempt + 1) + Remaining(s.attempt + 1)
  {
  }

  lemma CountdownKeepsBudget(s: Server, timerOk: bool)
    requires BudgetInv(s)
    ensures var t := StartCountdown(s, timerOk).0;
            BudgetInv(t) && Potential(t) <= Potential(s) && (s.secondsLeft == 0 ==> t.leftover == s.leftover)
  {
    hide Delay;
    if s.attempt < MAX_ATTEMPTS {
      CountdownSpendsBudget(s, timerOk);
    }
    hide Remaining;
  }

  lemma ConnectKeepsBudget(s: Server, p: Profile, readable: bool, o: Outcome)
    requires BudgetInv(s)
    ensures BudgetInv(HandleConnect(s, p, readable, o))
  {
    hide PassesPathCheck, Remaining;
    TotalBudget();
  }

  lemma StatusKeepsBudget(s: Server, v: VpnState, timerOk: bool)
    requires BudgetInv(s)
    ensures BudgetInv(HandleStatus(s, v, timerOk))
  {
    hide StartCountdown, Remaining;
    TotalBudget();
    CountdownKeepsBudget(s, timerOk);
  }

  lemma TickKeepsBudget(s: Server, o: Outcome, timerOk: bool)
    requires BudgetInv(s)
    ensures BudgetInv(HandleTick(s, o, timerOk))
  {
    hide StartCountdown, Remaining, Delay;
    if Counts(s) && s.secondsLeft <= 1 {
      var t := s.(ticks := s.ticks + 1);
      CountdownKeepsBudget(CallConnect(Cancel(t).(active := Select(s.profile.backendType, s.made)), o).0, timerOk);
    }
  }

  lemma HandleKeepsBudget(s: Server, e: Event)
    requires BudgetInv(s)
    ensures BudgetInv(Handle(s, e))
  {
    hide HandleConnect, HandleStatus, HandleTick, Remaining;
    match e
    case ConnectRequest(p, readable, o) => ConnectKeepsBudget(s, p, readable, o);
    case DisconnectRequest =>
    case Status(v, timerOk) => StatusKeepsBudget(s, v, timerOk);
    case Tick(o, timerOk) => TickKeepsBudget(s, o, timerOk);
    case Report(k, v) =>
    case Ends(k, v) =>
  }

  lemma GetOfSet(b: Backends, k: Kind, v: VpnState)
    ensures forall j :: b.Set(k, v).Get(j) == if j == k then v else b.Get(j)
  {
    forall j: Kind
      ensures b.Set(k, v).Get(j) == if j == k then v else b.Get(j)
    {
      match j
      case OpenVpnBackend => match k { case OpenVpnBackend => case WireGuardBackend => case TailscaleBackend => }
      case WireGuardBackend => match k { case OpenVpnBackend => case WireGuardBackend => case TailscaleBackend => }
      case TailscaleBackend => match k { case OpenVpnBackend => case WireGuardBackend => case TailscaleBackend => }
    }
  }

  lemma HandleKeepsLive(s: Server, e: Event)
    requires LiveInv(s) && BudgetInv(s) && Possible(s, e) && Obedient(s, e)
    ensures LiveInv(Handle(s, e))
  {
    hide PassesPathCheck, Remaining, Delay, Backends.Get, Backends.Set, Live;
    match e
    case ConnectRequest(p, readable, o) =>
      var k := Select(p.backendType, s.made);
      GetOfSet(s.states, k, o.state);
      GetOfSet(s.states, k, AfterRefusal(k, s.states.Get(k)));
      assert !Live(Error) by { ErrorIsNotLive(); }
    case DisconnectRequest =>
      GetOfSet(s.states, s.active, Disconnected);
      assert !Live(Disconnected) by { DisconnectedIsNotLive(); }
    case Status(v, timerOk) =>
    case Tick(o, timerOk) =>
      var k := Select(s.profile.backendType, s.made);
      GetOfSet(s.states, k, o.state);
      GetOfSet(s.states, k, AfterRefusal(k, s.states.Get(k)));
      assert !Live(Error) by { ErrorIsNotLive(); }
    case Report(k, v) =>
      GetOfSet(s.states, k, Reported(k, s.states.Get(k), v));
      assert !Live(Error) by { ErrorIsNotLive(); }
    case Ends(k, v) => GetOfSet(s.states, k, v);
  }

  lemma DisconnectedIsNotLive()
    ensures !Live(Disconnected)
  {
  }

  lemma ErrorIsNotLive()
    ensures !Live(Error)
  {
  }

  lemma {:induction false} RunKeeps(p: Profile, made: Made, states: seq<Server>, events: seq<Event>, n: nat)
    requires IsRun(p, made, states, events) && n < |states|
    ensures BudgetInv(states[n])
    ensures (forall i :: 0 <= i < n ==> Obedient(states[i], events[i])) ==> LiveInv(states[n])
  {
    hide Handle, Possible, Obedient;
    if n == 0 {
      TotalBudget();
    } else {
      RunKeeps(p, made, states, events, n - 1);
      HandleKeepsBudget(states[n - 1], events[n - 1]);
      if forall i :: 0 <= i < n ==> Obedient(states[i], events[i]) {
        HandleKeepsLive(states[n - 1], events[n - 1]);
      }
      assert states[n - 1 + 1] == Handle(states[n - 1], events[n - 1]);
    }
  }

  /** Auto-reconnect is bounded: between resets of the budget at most five countdowns start
      and at most 135 seconds are counted, plus what a countdown still had to run if one was
      under way when CONNECTED arrived (that reset does not stop it). */
  lemma ReconnectIsBounded(p: Profile, made: Made, states: seq<Server>, events: seq<Event>, n: nat)
    requires IsRun(p, made, states, events) && n < |states|
    ensures states[n].countdowns <= 5
    ensures states[n].ticks <= 135 + states[n].leftover
    ensures states[n].leftover <= 60
  {
    hide IsRun;
    RunKeeps(p, made, states, events, n);
  }

  /** Every counted second brings the end nearer: attempts left, then seconds left, go down
      lexicographically, unless the attempt got a backend started. */
  lemma TickMakesProgress(s: Server, o: Outcome, timerOk: bool)
    requires BudgetInv(s) && Counts(s)
    ensures var t := HandleTick(s, o, timerOk);
            && Potential(t) < Potential(s) && t.ticks == s.ticks + 1
            && (MAX_ATTEMPTS - t.attempt < MAX_ATTEMPTS - s.attempt
                || (t.attempt == s.attempt && t.secondsLeft < s.secondsLeft))
  {
    hide PassesPathCheck, Delay;
    if s.attempt < MAX_ATTEMPTS {
      CountdownSpendsBudget(s, timerOk);
    }
    hide Remaining;
  }

  /** Only one backend is ever live, even when stale status messages start a countdown. */
  lemma OneLiveBackend(p: Profile, made: Made, states: seq<Server>, events: seq<Event>, n: nat, j: Kind, k: Kind)
    requires IsRun(p, made, states, events) && n < |states|
    requires forall i :: 0 <= i < n ==> Obedient(states[i], events[i])
    requires Live(states[n].states.Get(j)) && Live(states[n].states.Get(k))
    ensures j == k == states[n].active && j == Select(states[n].profile.backendType, states[n].made)
  {
    hide IsRun;
    RunKeeps(p, made, states, events, n);
  }

  // Runs as events alone, and how many seconds they count.

  /** The events that restore the budget. */
  predicate Resets(s: Server, e: Event) {
    Accepted(s, e) || (e.Status? && e.state == Connected && s.lastState != Connected)
  }

  ghost predicate Admissible(s: Server, events: seq<Event>)
    decreases |events|
  {
    events == [] || (Possible(s, events[0]) && Admissible(Handle(s, events[0]), events[1..]))
  }

  /** A continuation in which nothing restores the budget. */
  ghost predicate Continues(s: Server, events: seq<Event>)
    decreases |events|
  {
    events == []
    || (Possible(s, events[0]) && !Resets(s, events[0]) && Continues(Handle(s, events[0]), events[1..]))
  }

  function After(s: Server, events: seq<Event>): Server
    decreases |events|
  {
    if events == [] then s else After(Handle(s, events[0]), events[1..])
  }

  function Second(s: Server, e: Event): nat {
    if e.Tick? && Counts(s) then 1 else 0
  }

  /** The countdown seconds that pass in a run. */
  function Seconds(s: Server, events: seq<Event>): nat
    decreases |events|
  {
    if events == [] then 0 else Second(s, events[0]) + Seconds(Handle(s, events[0]), events[1..])
  }

  /** Some continuation counts exactly, or more than, `n` seconds. */
  ghost predicate CanCount(s: Server, n: nat) {
    exists more :: Continues(s, more) && Seconds(s, more) == n
  }

  ghost predicate CanExceed(s: Server, n: nat) {
    exists more :: Continues(s, more) && Seconds(s, more) > n
  }

  /** Without a reset every second is paid for. */
  lemma EventSpends(s: Server, e: Event)
    requires BudgetInv(s) && !Resets(s, e)
    ensures var t := Handle(s, e);
            BudgetInv(t) && Second(s, e) + Potential(t) <= Potential(s) && t.ticks == s.ticks + Second(s, e)
  {
    hide HandleTick, Accepted, PassesPathCheck, Remaining, Delay;
    HandleKeepsBudget(s, e);
    match e
    case ConnectRequest(p, readable, o) => AcceptedOrRefused(s, e);
    case DisconnectRequest =>
    case Status(v, timerOk) => CountdownKeepsBudget(s, timerOk);
    case Tick(o, timerOk) =>
      if Counts(s) {
        TickMakesProgress(s, o, timerOk);
      } else {
        IdleTick(s, o, timerOk);
      }
    case Report(k, v) =>
    case Ends(k, v) =>
  }

  lemma AcceptedOrRefused(s: Server, e: Event)
    requires e.ConnectRequest? && !Accepted(s, e)
    ensures var t := Handle(s, e); t == s || t == s.(active := t.active)
  {
    hide PassesPathCheck;
  }

  lemma IdleTick(s: Server, o: Outcome, timerOk: bool)
    requires !Counts(s)
    ensures HandleTick(s, o, timerOk) == s
  {
  }

  /** No continuation counts more seconds than the countdown and the attempts left allow. */
  lemma {:induction false} SecondsBounded(s: Server, events: seq<Event>)
    requires BudgetInv(s) && Continues(s, events)
    ensures Seconds(s, events) <= Potential(s)
    ensures After(s, events).ticks == s.ticks + Seconds(s, events)
    decreases |events|
  {
    hide Handle, Resets, Potential, BudgetInv, Second;
    if events != [] {
      EventSpends(s, events[0]);
      SecondsBounded(Handle(s, events[0]), events[1..]);
    }
  }

  /** What happens next when every attempt is refused. */
  function Refusal(s: Server): Event {
    if s.timer then Tick(Outcome(false, Error, false), true) else Status(Disconnected, true)
  }

  lemma RefusalSpends(s: Server)
    requires BudgetInv(s) && s.armed && !s.userDisconnect && (s.timer || s.attempt < MAX_ATTEMPTS)
    ensures var t := Handle(s, Refusal(s));
            && Possible(s, Refusal(s)) && !Resets(s, Refusal(s))
            && BudgetInv(t) && t.armed && !t.userDisconnect
            && Second(s, Refusal(s)) + Potential(t) == Potential(s)
            && (s.timer ==> Potential(t) < Potential(s)) && (!s.timer ==> t.timer)
  {
    HandleKeepsBudget(s, Refusal(s));
    hide BudgetInv, StartCountdown, HandleStatus, HandleTick, Potential, Live, Backends.Get, Backends.Set, PassesPathCheck;
    if s.timer {
      RefusedTick(s);
    } else {
      RefusedDrop(s);
    }
  }

  /** A countdown that starts takes its seconds out of what remains. */
  lemma CountdownTakes(s: Server)
    requires s.armed && !s.userDisconnect && s.attempt <= MAX_ATTEMPTS && s.secondsLeft == 0
    ensures var t := StartCountdown(s, true).0;
            Potential(t) == Potential(s) && t.armed && !t.userDisconnect && (s.attempt < MAX_ATTEMPTS ==> t.timer)
  {
    hide Delay;
    if s.attempt < MAX_ATTEMPTS {
      CountdownSpendsBudget(s, true);
    }
    hide Remaining;
  }

  lemma RefusedTick(s: Server)
    requires BudgetInv(s) && s.timer
    ensures var t := HandleTick(s, Outcome(false, Error, false), true);
            Potential(t) + 1 == Potential(s) && t.armed && !t.userDisconnect
  {
    hide StartCountdown, Remaining, Delay, Live, Backends.Get, Backends.Set;
    if s.secondsLeft == 1 {
      var u := CallConnect(Cancel(s.(ticks := s.ticks + 1)).(active := Select(s.profile.backendType, s.made)),
                           Outcome(false, Error, false)).0;
      CountdownTakes(u);
    }
  }

  lemma RefusedDrop(s: Server)
    requires BudgetInv(s) && s.armed && !s.userDisconnect && !s.timer && s.attempt < MAX_ATTEMPTS
    ensures var t := HandleStatus(s, Disconnected, true);
            Potential(t) == Potential(s) && t.armed && !t.userDisconnect && t.timer
  {
    hide StartCountdown, Remaining, Delay;
    CountdownTakes(s);
    StartsWhenWanted(s);
  }

  lemma StartsWhenWanted(s: Server)
    requires s.armed && !s.userDisconnect && s.attempt < MAX_ATTEMPTS
    ensures StartCountdown(s, true).1
  {
  }

  /** And that bound is reached as long as reconnecting is wanted: when every attempt is
      refused, all of it is counted. */
  lemma {:induction false} Exhaust(s: Server) returns (events: seq<Event>)
    requires BudgetInv(s) && s.armed && !s.userDisconnect
    ensures Continues(s, events) && Seconds(s, events) == Potential(s)
    decreases Potential(s), if s.timer then 0 else 1
  {
    hide Handle, Resets, Remaining, Second;
    if s.timer || s.attempt < MAX_ATTEMPTS {
      RefusalSpends(s);
      var t := Handle(s, Refusal(s));
      var rest := Exhaust(t);
      events := [Refusal(s)] + rest;
      assert events[1..] == rest;
    } else {
      NothingRemains(s);
      events := [];
    }
  }

  lemma NothingRemains(s: Server)
    requires s.attempt >= MAX_ATTEMPTS && s.secondsLeft == 0
    ensures Potential(s) == 0
  {
  }

  /** The part of a run between two states is a run of its own. */
  lemma {:induction false} RunContinues(p: Profile, made: Made, states: seq<Server>, events: seq<Event>, i: nat, n: nat)
    requires IsRun(p, made, states, events) && i <= n < |states|
    requires forall j :: i <= j < n ==> !Resets(states[j], events[j])
    ensures Continues(states[i], events[i..n]) && After(states[i], events[i..n]) == states[n]
    decreases n - i
  {
    hide Handle, Possible, Resets;
    if i < n {
      RunContinues(p, made, states, events, i + 1, n);
      assert events[i..n][1..] == events[i + 1..n];
      assert Possible(states[i], events[i]) && states[i + 1] == Handle(states[i], events[i]);
    }
  }

  lemma AcceptedStartsFull(s: Server, e: Event)
    requires Accepted(s, e)
    ensures var t := Handle(s, e);
            t.attempt == 0 && t.secondsLeft == 0 && t.ticks == 0 && t.countdowns == 0 && t.armed && !t.userDisconnect
  {
    hide PassesPathCheck;
  }

  /** After a user connect that got past the checks, and until the budget is restored, at
      most five countdowns start and at most 135 seconds are counted; and 135 are counted
      when every attempt is refused. */
  lemma BoundedAfterConnect(p: Profile, made: Made, states: seq<Server>, events: seq<Event>, i: nat, n: nat)
    requires IsRun(p, made, states, events) && i < n < |states| && Accepted(states[i], events[i])
    requires forall j :: i < j < n ==> !Resets(states[j], events[j])
    ensures states[n].countdowns <= 5 && states[n].ticks <= 135
    ensures Seconds(states[i + 1], events[i + 1..n]) <= 135
    ensures CanCount(states[i + 1], 135)
  {
    hide Handle, Possible, Accepted, Resets, Remaining;
    RunKeeps(p, made, states, events, i + 1);
    RunKeeps(p, made, states, events, n);
    assert states[i + 1] == Handle(states[i], events[i]);
    AcceptedStartsFull(states[i], events[i]);
    TotalBudget();
    RunContinues(p, made, states, events, i + 1, n);
    SecondsBounded(states[i + 1], events[i + 1..n]);
    var more := Exhaust(states[i + 1]);
  }

  lemma ConnectedRestores(s: Server, e: Event)
    requires e.Status? && Resets(s, e)
    ensures var t := Handle(s, e);
            t.attempt == 0 && t.secondsLeft == s.secondsLeft && t.armed == s.armed && t.userDisconnect == s.userDisconnect
  {
  }

  /** After CONNECTED restored the budget, more than 135 seconds can be counted without a
      further reset if and only if a countdown was running when it arrived; the most is
      then 135 plus what that countdown still had to run. */
  lemma OverBudgetExactly(p: Profile, made: Made, states: seq<Server>, events: seq<Event>, i: nat)
    requires IsRun(p, made, states, events) && i < |events|
    requires events[i].Status? && Resets(states[i], events[i])
    ensures CanExceed(states[i + 1], 135) <==> states[i].timer
    ensures !CanExceed(states[i + 1], 135 + states[i].secondsLeft)
    ensures states[i].timer ==> CanCount(states[i + 1], 135 + states[i].secondsLeft)
  {
    hide Handle, Possible, Resets, Remaining;
    RunKeeps(p, made, states, events, i);
    RunKeeps(p, made, states, events, i + 1);
    assert states[i + 1] == Handle(states[i], events[i]);
    ConnectedRestores(states[i], events[i]);
    TotalBudget();
    var s := states[i + 1];
    forall more | Continues(s, more)
      ensures Seconds(s, more) <= 135 + states[i].secondsLeft
    {
      SecondsBounded(s, more);
    }
    if states[i].timer {
      var more := Exhaust(s);
    }
  }

  /** The states of an admissible run. */
  lemma {:induction false} Trace(s: Server, events: seq<Event>) returns (states: seq<Server>)
    requires Admissible(s, events)
    ensures |states| == |events| + 1 && states[0] == s && states[|events|] == After(s, events)
    ensures forall i :: 0 <= i < |events| ==> Possible(states[i], events[i]) && states[i + 1] == Handle(states[i], events[i])
    ensures forall i :: 0 <= i <= |events| ==> states[i] == After(s, events[..i])
    decreases |events|
  {
    hide Handle, Possible;
    states := [s];
    if events != [] {
      var rest := Trace(Handle(s, events[0]), events[1..]);
      states := states + rest;
      forall i | 0 <= i < |events|
        ensures Possible(states[i], events[i]) && states[i + 1] == Handle(states[i], events[i])
      {
        assert i > 0 ==> events[i] == events[1..][i - 1];
      }
      forall i | 0 <= i <= |events|
        ensures states[i] == After(s, events[..i])
      {
        assert i > 0 ==> events[..i][1..] == events[1..][..i - 1];
      }
    }
  }

  lemma {:induction false} Joined(s: Server, a: seq<Event>, b: seq<Event>)
    requires Admissible(s, a) && Continues(After(s, a), b)
    ensures Admissible(s, a + b) && After(s, a + b) == After(After(s, a), b)
    decreases |a| + |b|
  {
    hide Handle, Possible, Resets;
    if a != [] {
      Joined(Handle(s, a[0]), a[1..], b);
      assert (a + b)[1..] == a[1..] + b;
    } else {
      assert a + b == b;
      if b != [] {
        assert Admissible(Handle(s, b[0]), []);
        Joined(Handle(s, b[0]), [], b[1..]);
        assert [] + b[1..] == b[1..];
      }
    }
  }

  const PLAIN := Profile(OpenVpn, "/v")

  /** A user connect, five drops still queued from earlier sessions, then CONNECTED. */
  const STALE_DROPS: seq<Event> := [
    ConnectRequest(PLAIN, true, Outcome(true, Connecting, true)),
    Status(Disconnected, true), Status(Disconnected, true), Status(Disconnected, true),
    Status(Disconnected, true), Status(Disconnected, true), Status(Connected, true)]

  lemma PlainPathOk()
    ensures PassesPathCheck(PLAIN, true)
  {
  }

  lemma {:induction false} AfterNext(s: Server, events: seq<Event>, k: nat)
    requires k < |events| && Admissible(s, events[..k]) && Possible(After(s, events[..k]), events[k])
    ensures Admissible(s, events[..k + 1])
    ensures After(s, events[..k + 1]) == Handle(After(s, events[..k]), events[k])
    decreases |events|
  {
    hide Handle, Possible;
    if k > 0 {
      assert events[..k][1..] == events[1..][..k - 1] && events[..k + 1][1..] == events[1..][..k];
      AfterNext(Handle(s, events[0]), events[1..], k - 1);
    }
  }

  /** The state of the k-th stale drop: a countdown for attempt k with its full delay. */
  ghost predicate Dropped(s: Server, k: nat) {
    && s.attempt == k && s.timer == (k > 0) && s.secondsLeft == (if k > 0 then Delay(k) else 0)
    && s.armed && !s.userDisconnect && s.lastState != Connected && Live(s.states.Get(s.active))
  }

  lemma PlainConnect(p: Profile, made: Made)
    ensures Possible(Start(p, made), STALE_DROPS[0]) && Dropped(Handle(Start(p, made), STALE_DROPS[0]), 0)
  {
    hide PassesPathCheck;
    PlainPathOk();
  }

  lemma Drop(s: Server, k: nat)
    requires k < 5 && Dropped(s, k)
    ensures Possible(s, Status(Disconnected, true)) && Dropped(Handle(s, Status(Disconnected, true)), k + 1)
  {
    hide Delay;
  }

  lemma {:induction false} StaleDrops(p: Profile, made: Made, k: nat)
    requires k <= 5
    ensures Admissible(Start(p, made), STALE_DROPS[..k + 1])
    ensures Dropped(After(Start(p, made), STALE_DROPS[..k + 1]), k)
  {
    hide Handle, Possible, Dropped;
    if k == 0 {
      PlainConnect(p, made);
      AfterNext(Start(p, made), STALE_DROPS, 0);
    } else {
      StaleDrops(p, made, k - 1);
      Drop(After(Start(p, made), STALE_DROPS[..k]), k - 1);
      AfterNext(Start(p, made), STALE_DROPS, k);
    }
  }

  lemma ConnectedWhileDropped(s: Server)
    requires Dropped(s, 5)
    ensures var e := Status(Connected, true);
            Possible(s, e) && Resets(s, e) && Handle(s, e).ticks == 0 && s.secondsLeft == 60
  {
  }

  /** The bound of 135 seconds fails: a run from the start in which 195 are counted after a
      CONNECTED, with the backend live when it arrives. */
  lemma OverBudgetRun(p: Profile, made: Made) returns (states: seq<Server>, events: seq<Event>)
    ensures IsRun(p, made, states, events) && |events| > 6
    ensures events[6].Status? && Resets(states[6], events[6]) && Live(states[6].states.Get(states[6].active))
    ensures forall j :: 6 < j < |events| ==> !Resets(states[j], events[j])
    ensures states[|events|].ticks == 195
  {
    hide Handle, Possible, Resets, Remaining, Delay, Admissible;
    var s := Start(p, made);
    StaleDrops(p, made, 5);
    var drops := After(s, STALE_DROPS[..6]);
    ConnectedWhileDropped(drops);
    AfterNext(s, STALE_DROPS, 6);
    assert STALE_DROPS[..7] == STALE_DROPS;
    states, events := TraceOf(p, made, STALE_DROPS);
    RunKeeps(p, made, states, events, 7);
    ConnectedRestores(drops, events[6]);
    TotalBudget();
    var more := Exhaust(states[7]);
    SecondsBounded(states[7], more);
    Joined(s, STALE_DROPS, more);
    states, events := TraceOf(p, made, STALE_DROPS + more);
    assert events[..6] == STALE_DROPS[..6] && events[..7] == STALE_DROPS;
    assert events[7..] == more;
    StaysReset(states, events, 7);
  }

  lemma TraceOf(p: Profile, made: Made, run: seq<Event>) returns (states: seq<Server>, events: seq<Event>)
    requires Admissible(Start(p, made), run)
    ensures events == run && IsRun(p, made, states, events)
    ensures forall i :: 0 <= i <= |events| ==> states[i] == After(Start(p, made), events[..i])
    ensures states[|events|] == After(Start(p, made), run)
  {
    hide Handle, Possible, Admissible;
    events := run;
    states := Trace(Start(p, made), run);
    assert run[..|run|] == run;
  }

  /** A continuation resets nothing along its states. */
  lemma {:induction false} StaysReset(states: seq<Server>, events: seq<Event>, i: nat)
    requires |states| == |events| + 1 && i <= |events|
    requires forall j :: i <= j < |events| ==> states[j + 1] == Handle(states[j], events[j])
    requires Continues(states[i], events[i..])
    ensures forall j :: i <= j < |events| ==> !Resets(states[j], events[j])
    decreases |events| - i
  {
    hide Handle, Possible, Resets;
    if i < |events| {
      assert events[i..][1..] == events[i + 1..];
      assert states[i + 1] == Handle(states[i], events[i]);
      StaysReset(states, events, i + 1);
    }
  }

  ghost predicate Quiet(s: Server) {
    s.userDisconnect && !s.timer
  }

  /** After a user disconnect no backend's Connect is called and no countdown runs until a
      user connect gets past the checks. */
  lemma {:induction false} DisconnectCancels(p: Profile, made: Made, states: seq<Server>, events: seq<Event>, i: nat, n: nat)
    requires IsRun(p, made, states, events) && i < n < |states| && events[i].DisconnectRequest?
    requires forall j :: i < j < n ==> !Accepted(states[j], events[j])
    ensures Quiet(states[n]) && states[n].connects == states[i + 1].connects
  {
    hide PassesPathCheck, Remaining, Delay, Possible;
    if n > i + 1 {
      DisconnectCancels(p, made, states, events, i, n - 1);
      assert !Accepted(states[n - 1], events[n - 1]);
      assert states[n - 1 + 1] == Handle(states[n - 1], events[n - 1]);
    } else {
      assert states[i + 1] == Handle(states[i], events[i]);
    }
  }
}

/** The daemon's handlers over its own fields. */
module Reconnect {
  import opened ReconnectSpec

  /** The daemon's doubling loop. */
  method ReconnectDelaySeconds(attempt: int) returns (d: int)
    ensures d == Delay(attempt)
  {
    d := 5;
    var i := 1;
    while i < attempt && d < 60
      invariant 1 <= i && (i <= attempt || i == 1)
      invariant i <= 5 && d == (if i == 1 then 5 else if i == 2 then 10 else if i == 3 then 20 else if i == 4 then 40 else 80)
    {
      d := d * 2;
      i := i + 1;
    }
    d := if d > 60 then 60 else d;
  }

  class Daemon {
    const made: Made
    var active: Kind
    var states: Backends
    var running: set<Kind>
    var profile: Profile
    var armed: bool
    var userDisconnect: bool
    var attempt: nat
    var secondsLeft: nat
    var timer: bool
    var lastState: VpnState
    ghost var connects: nat
    ghost var countdowns: nat
    ghost var ticks: nat
    ghost var leftover: nat

    ghost function S(): Server
      reads this
    {
      Server(made, active, states, running, profile, armed, userDisconnect, attempt, secondsLeft, timer, lastState,
             connects, countdowns, ticks, leftover)
    }

    constructor (profile: Profile, made: Made)
      ensures S() == Start(profile, made)
    {
      this.made := made;
      active := OpenVpnBackend;
      states := Backends(Disconnected, Disconnected, Disconnected);
      running := {};
      this.profile := profile;
      armed, userDisconnect, timer := false, false, false;
      attempt, secondsLeft := 0, 0;
      lastState := Disconnected;
      connects, countdowns, ticks, leftover := 0, 0, 0, 0;
    }

    method SelectBackend(t: BackendType)
      modifies this`active
      ensures active == Select(t, made)
    {
      match t {
        case WireGuard => active := if made.wireGuard then WireGuardBackend else OpenVpnBackend;
        case Tailscale => active := if made.tailscale then TailscaleBackend else OpenVpnBackend;
        case _ => active := OpenVpnBackend;
      }
    }

    /** The active backend's Connect; `o` is what it does unless it refuses. */
    method BackendConnect(o: Outcome) returns (ok: bool)
      modifies this`states, this`running, this`connects
      ensures (S(), ok) == CallConnect(old(S()), o)
    {
      connects := connects + 1;
      if active == TailscaleBackend {
        if active in running {
          states := states.Set(active, Error);
          return false;
        }
      } else if Live(states.Get(active)) {
        return false;
      }
      states := states.Set(active, o.state);
      running := if o.runs then running + {active} else running - {active};
      return o.ok;
    }

    method CancelReconnect()
      modifies this`timer, this`secondsLeft
      ensures S() == Cancel(old(S()))
    {
      timer := false;
      secondsLeft := 0;
    }

    method ArmReconnect(p: Profile)
      modifies this
      ensures S() == Arm(old(S()), p)
    {
      CancelReconnect();
      profile := p;
      userDisconnect := false;
      armed := true;
      attempt := 0;
      countdowns, ticks, leftover := 0, 0, 0;
    }

    method HandleConnect(p: Profile, readable: bool, o: Outcome)
      modifies this
      ensures S() == ReconnectSpec.HandleConnect(old(S()), p, readable, o)
    {
      hide PathOk;
      if Live(states.Get(active)) {
        return;
      }
      SelectBackend(p.backendType);
      var needsConfigFile := p.backendType == OpenVpn || p.backendType == WireGuard;
      if needsConfigFile && !PathOk(p.configPath, readable) {
        return;
      }
      ArmReconnect(p);
      var _ := BackendConnect(o);
    }

    method HandleDisconnect()
      modifies this
      ensures S() == ReconnectSpec.HandleDisconnect(old(S()))
    {
      userDisconnect := true;
      var wasReconnecting := timer;
      CancelReconnect();
      if active != OpenVpnBackend && active !in running {
        states := states.Set(active, Disconnected);
      }
      if wasReconnecting {
        lastState := Disconnected;
      }
    }

    method StartReconnectCountdown(timerOk: bool) returns (started: bool)
      modifies this
      ensures (S(), started) == StartCountdown(old(S()), timerOk)
    {
      if userDisconnect || !armed || attempt >= MAX_ATTEMPTS {
        return false;
      }
      CancelReconnect();
      attempt := attempt + 1;
      var d := ReconnectDelaySeconds(attempt);
      secondsLeft := d;
      timer := true;
      if !timerOk {
        CancelReconnect();
        return false;
      }
      countdowns := countdowns + 1;
      return true;
    }

    method HandleStatus(v: VpnState, timerOk: bool)
      modifies this
      ensures S() == ReconnectSpec.HandleStatus(old(S()), v, timerOk)
    {
      var newState := v;
      if newState == Disconnected {
        var started := StartReconnectCountdown(timerOk);
        if started {
          newState := Reconnecting;
        }
      }
      var previous := lastState;
      lastState := newState;
      if newState == previous {
        return;
      }
      if newState == Connected {
        attempt := 0;
        countdowns, ticks, leftover := 0, 0, secondsLeft;
      }
    }

    method HandleReconnectTick(o: Outcome, timerOk: bool)
      modifies this
      ensures S() == HandleTick(old(S()), o, timerOk)
    {
      hide CallConnect, StartCountdown, Select;
      if !timer || userDisconnect {
        return;
      }
      ticks := ticks + 1;
      if secondsLeft > 1 {
        secondsLeft := secondsLeft - 1;
        return;
      }
      CancelReconnect();
      AttemptReconnect(o, timerOk);
    }

    method AttemptReconnect(o: Outcome, timerOk: bool)
      modifies this
      ensures S() == var (u, ok) := CallConnect(old(S()).(active := Select(old(profile).backendType, made)), o);
                     if ok then u else StartCountdown(u, timerOk).0
    {
      hide CallConnect, StartCountdown, Select;
      SelectBackend(profile.backendType);
      var ok := BackendConnect(o);
      if !ok {
        var _ := StartReconnectCountdown(timerOk);
      }
    }
  }
}
