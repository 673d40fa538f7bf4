/** What every message does to the daemon, in literal terms: which states and numbers, and what
    stays as it was. */
module DaemonForms {
  import opened ReconnectSpec

  lemma LiveForm(v: VpnState)
    ensures Live(v) <==> v == Connecting || v == Authenticating || v == Connected || v == Reconnecting
  {
  }

  /** The daemon starts with nothing live, nothing running and nothing to retry. */
  lemma StartForm(p: Profile, made: Made, k: Kind)
    ensures var s := Start(p, made);
            && s.active == OpenVpnBackend && s.states.Get(k) == Disconnected && s.running == {} && s.profile == p
            && s.made == made && !s.armed && !s.userDisconnect && !s.timer && s.attempt == 0 && s.secondsLeft == 0
            && s.lastState == Disconnected && s.connects == 0
  {
  }

  lemma DelayForm(attempt: int)
    ensures Delay(1) == 5 && Delay(2) == 10 && Delay(3) == 20 && Delay(4) == 40 && Delay(5) == 60
    ensures attempt > 5 ==> Delay(attempt) == 60
  {
  }

  lemma SelectForm(made: Made)
    ensures Select(OpenVpn, made) == OpenVpnBackend && Select(Ipsec, made) == OpenVpnBackend
    ensures Select(WireGuard, made) == if made.wireGuard then WireGuardBackend else OpenVpnBackend
    ensures Select(Tailscale, made) == if made.tailscale then TailscaleBackend else OpenVpnBackend
  {
  }

  predicate ParentAt(path: string, i: nat) {
    i + 4 <= |path| && path[i..i + 4] == "/../"
  }

  /** A profile that needs a configuration file needs an absolute, readable path without a
      parent segment inside or at its end; the others need none. */
  lemma PathForm(p: Profile, readable: bool)
    ensures PassesPathCheck(p, readable) <==>
            || p.backendType == Ipsec || p.backendType == Tailscale
            || var path := p.configPath;
               && readable && |path| > 0 && path[0] == '/'
               && (forall i: nat :: !ParentAt(path, i))
               && !(|path| >= 3 && path[|path| - 3..] == "/..")
  {
    var path := p.configPath;
    assert forall i: nat :: ParentAt(path, i) <==> i <= |path| && OccursAt("/../", path, i);
    if Occurs("/../", path) {
      var i :| 0 <= i <= |path| && OccursAt("/../", path, i);
      assert ParentAt(path, i);
    }
  }

  /** A status other than DISCONNECTED starts no countdown, stops none and connects nothing. */
  lemma StatusForm(s: Server, v: VpnState, timerOk: bool)
    requires v != Disconnected
    ensures var t := Handle(s, Status(v, timerOk));
            && t.timer == s.timer && t.secondsLeft == s.secondsLeft && t.connects == s.connects
            && t.active == s.active && t.states == s.states && t.running == s.running
            && t.armed == s.armed && t.userDisconnect == s.userDisconnect && t.profile == s.profile
            && t.lastState == v
            && t.attempt == if v == Connected && s.lastState != Connected then 0 else s.attempt
  {
  }

  /** A drop starts a countdown where one is wanted and a timer can be had, and shows as
      RECONNECTING then; elsewhere it shows as what it is. */
  lemma DropForm(s: Server, timerOk: bool)
    ensures var t := Handle(s, Status(Disconnected, timerOk));
            && t.connects == s.connects && t.active == s.active && t.states == s.states && t.running == s.running
            && t.armed == s.armed && t.userDisconnect == s.userDisconnect && t.profile == s.profile
            && if s.userDisconnect || !s.armed || s.attempt >= 5
               then t.timer == s.timer && t.secondsLeft == s.secondsLeft && t.attempt == s.attempt
                    && t.lastState == Disconnected
               else t.attempt == s.attempt + 1
                    && t.timer == timerOk && t.secondsLeft == (if timerOk then Delay(s.attempt + 1) else 0)
                    && t.lastState == (if timerOk then Reconnecting else Disconnected)
  {
    hide Delay;
  }

  /** Nothing else spends an attempt or starts a timer: only a drop, or the last second of a
      countdown whose Connect answered no. */
  lemma AttemptsOnlyAfter(s: Server, e: Event)
    requires Handle(s, e).attempt > s.attempt || (Handle(s, e).timer && !s.timer)
    ensures || (e.Status? && e.state == Disconnected)
            || (e.Tick? && s.timer && !s.userDisconnect && s.secondsLeft <= 1
                && (!e.outcome.ok || Refuses(s, Select(s.profile.backendType, s.made))))
  {
    hide PassesPathCheck, Select, Delay, Backends.Get, Backends.Set;
  }

  /** A user connect: refused while the active backend is live, otherwise the profile's backend
      is chosen, and connected from a full budget if the path is good. */
  lemma ConnectForm(s: Server, p: Profile, readable: bool, o: Outcome)
    ensures var t := Handle(s, ConnectRequest(p, readable, o));
            if Live(s.states.Get(s.active)) then t == s
            else
              && t.active == Select(p.backendType, s.made) && t.lastState == s.lastState
              && if !PassesPathCheck(p, readable) then t == s.(active := t.active)
                 else
                   && t.connects == s.connects + 1 && t.profile == p && t.armed && !t.userDisconnect
                   && !t.timer && t.secondsLeft == 0 && t.attempt == 0
                   && CallDone(s, s.(active := t.active), t, o)
  {
    hide PassesPathCheck, Select;
    CallForm(Arm(s.(active := Select(p.backendType, s.made)), p), o);
  }

  /** What a Connect of `u.active` does to the backends on the way from `s` to `t`. */
  ghost predicate CallDone(s: Server, u: Server, t: Server, o: Outcome) {
    var k := u.active;
    && (forall j :: j != k ==> t.states.Get(j) == s.states.Get(j) && (j in t.running <==> j in s.running))
    && if k == TailscaleBackend && k in s.running then t.states.Get(k) == Error && k in t.running
       else if k != TailscaleBackend && Live(s.states.Get(k))
       then t.states.Get(k) == s.states.Get(k) && (k in t.running <==> k in s.running)
       else t.states.Get(k) == o.state && (k in t.running <==> o.runs)
  }

  lemma CallForm(s: Server, o: Outcome)
    ensures CallDone(s, s, CallConnect(s, o).0, o)
    ensures CallConnect(s, o).1 <==>
            o.ok && !(if s.active == TailscaleBackend then s.active in s.running else Live(s.states.Get(s.active)))
  {
    hide Backends.Get, Backends.Set, Live;
    GetOfSet(s.states, s.active, o.state);
    GetOfSet(s.states, s.active, AfterRefusal(s.active, s.states.Get(s.active)));
  }

  /** A user disconnect. */
  lemma DisconnectForm(s: Server)
    ensures var t := Handle(s, DisconnectRequest);
            && t.userDisconnect && !t.timer && t.secondsLeft == 0
            && t.attempt == s.attempt && t.connects == s.connects && t.active == s.active && t.profile == s.profile
            && t.armed == s.armed && t.running == s.running
            && t.lastState == (if s.timer then Disconnected else s.lastState)
            && (forall j :: j != s.active ==> t.states.Get(j) == s.states.Get(j))
            && t.states.Get(s.active) == (if s.active == OpenVpnBackend || s.active in s.running
                                          then s.states.Get(s.active) else Disconnected)
  {
    hide Backends.Get, Backends.Set;
    GetOfSet(s.states, s.active, Disconnected);
  }

  /** A second of the countdown, and its last one. */
  lemma TickForm(s: Server, o: Outcome, timerOk: bool)
    ensures var t := Handle(s, Tick(o, timerOk));
            && t.lastState == s.lastState && t.armed == s.armed && t.userDisconnect == s.userDisconnect
            && t.profile == s.profile
            && if !s.timer || s.userDisconnect then t == s
               else if s.secondsLeft > 1
               then t.secondsLeft == s.secondsLeft - 1 && t.timer && t.attempt == s.attempt && t.connects == s.connects
                    && t.active == s.active && t.states == s.states && t.running == s.running
               else
                 var k := Select(s.profile.backendType, s.made);
                 var ok := o.ok && !(if k == TailscaleBackend then k in s.running else Live(s.states.Get(k)));
                 && t.active == k && t.connects == s.connects + 1 && CallDone(s, s.(active := k), t, o)
                 && if ok || !s.armed || s.attempt >= 5
                    then !t.timer && t.secondsLeft == 0 && t.attempt == s.attempt
                    else t.attempt == s.attempt + 1
                         && t.timer == timerOk && t.secondsLeft == (if timerOk then Delay(s.attempt + 1) else 0)
  {
    hide Select, Delay, CallConnect, CallDone, Live, Backends.Get;
    if s.timer && !s.userDisconnect && s.secondsLeft <= 1 {
      var k := Select(s.profile.backendType, s.made);
      var selected := Cancel(s.(ticks := s.ticks + 1)).(active := k);
      CallForm(selected, o);
      CallLeaves(selected, o);
      StartLeaves(CallConnect(selected, o).0, timerOk);
      SameCall(selected, s, CallConnect(selected, o).0, Handle(s, Tick(o, timerOk)), o);
    }
  }

  lemma CallLeaves(s: Server, o: Outcome)
    ensures var t := CallConnect(s, o).0; t == s.(connects := s.connects + 1, states := t.states, running := t.running)
  {
    hide Backends.Get, Backends.Set, Live;
  }

  lemma StartLeaves(s: Server, timerOk: bool)
    ensures var t := StartCountdown(s, timerOk).0; t.states == s.states && t.running == s.running
  {
    hide Delay;
  }

  lemma SameCall(s: Server, r: Server, t: Server, u: Server, o: Outcome)
    requires CallDone(s, s, t, o) && r.states == s.states && r.running == s.running
    requires u.states == t.states && u.running == t.running
    ensures CallDone(r, r.(active := s.active), u, o)
  {
    hide Backends.Get, Live;
  }
}
