/** What the OpenVPN backend does to the routing table and the session file, as lists of
    single effects, so that a crash can fall between any two of them. */
module OpenVpnRoutesSpec {
  import opened Options
  import opened Routing

  /** The session file's record of what has to be undone. */
  datatype Record = Record(tunInterface: string, tunPeer: string, origGateway: string, origIface: string,
                           server: string)

  /** The session file: writing it truncates it first, and a file without its whole record
      cannot be read back. */
  datatype SessionFile = Missing | Torn | Holds(record: Record)

  datatype World = World(table: set<Route>, session: SessionFile)

  datatype Op =
    | AddRoute(r: Route)
    | DeleteRoute(r: Route)
    | TruncateSession
    | WriteSession(record: Record)
    | UnlinkSession

  /** Adding a present route and deleting an absent one change nothing. */
  function Do(w: World, op: Op): World {
    match op
    case AddRoute(r) => w.(table := w.table + {r})
    case DeleteRoute(r) => w.(table := w.table - {r})
    case TruncateSession => w.(session := Torn)
    case WriteSession(record) => w.(session := Holds(record))
    case UnlinkSession => w.(session := Missing)
  }

  function DoAll(w: World, ops: seq<Op>): World {
    if ops == [] then w else Do(DoAll(w, ops[..|ops| - 1]), ops[|ops| - 1])
  }

  /** The backend's routing fields. */
  datatype Fields = Fields(origGateway: string, origIface: string, tunPeer: string, installedServer: string,
                           installedPeer: string, installed: bool, tunInterface: string)

  // Scanning log lines.

  /** The first position at or after `from` where `sub` occurs. */
  function Find(s: string, sub: string, from: nat): (r: Option<nat>)
    ensures r.Some? ==> r.value + |sub| <= |s| && s[r.value..r.value + |sub|] == sub
    decreases |s| - from
  {
    if from + |sub| > |s| then None
    else if s[from..from + |sub|] == sub then Some(from)
    else Find(s, sub, from + 1)
  }

  predicate Blank(c: char) {
    c == ' ' || c == '\t'
  }

  predicate Delimiter(c: char) {
    Blank(c) || c == ',' || c == '\'' || c == '"' || c == '\n' || c == '\r'
  }

  function SkipBlanks(s: string, pos: nat): (p: nat)
    requires pos <= |s|
    ensures pos <= p <= |s|
    decreases |s| - pos
  {
    if pos < |s| && Blank(s[pos]) then SkipBlanks(s, pos + 1) else pos
  }

  function TokenEnd(s: string, pos: nat): (p: nat)
    requires pos <= |s|
    ensures pos <= p <= |s|
    decreases |s| - pos
  {
    if pos < |s| && !Delimiter(s[pos]) then TokenEnd(s, pos + 1) else pos
  }

  function Token(s: string, pos: nat): string
    requires pos <= |s|
  {
    var start := SkipBlanks(s, pos);
    s[start..TokenEnd(s, start)]
  }

  /** The underlying default route is captured once, as gateway and interface together. */
  function ScanGateway(f: Fields, line: string): Fields {
    if f.origGateway != "" then f
    else
      match Find(line, "ROUTE_GATEWAY ", 0)
      case None => f
      case Some(pos) =>
        var gateway := Token(line, pos + 14);
        var iface := match Find(line, "IFACE=", pos) case None => "" case Some(p) => Token(line, p + 6);
        if gateway != "" && iface != "" then f.(origGateway := gateway, origIface := iface) else f
  }

  /** The tunnel peer is taken from every line that names one. */
  function ScanPeer(f: Fields, line: string): Fields {
    match Find(line, "route-gateway ", 0)
    case None => f
    case Some(pos) =>
      var peer := Token(line, pos + 14);
      if peer != "" then f.(tunPeer := peer) else f
  }

  function Scan(f: Fields, line: string): Fields {
    ScanPeer(ScanGateway(f, line), line)
  }

  // Installing, refreshing, removing and recovering.

  function Pin(f: Fields, server: string): Route {
    HostVia(f.origIface, server, f.origGateway)
  }

  function Original(f: Fields): Route {
    DefaultVia(f.origIface, f.origGateway)
  }

  predicate CanInstall(f: Fields, server: string) {
    !f.installed && f.origGateway != "" && f.origIface != "" && f.tunPeer != "" && server != ""
  }

  /** Writing the session file is best effort: it may not open, it may break off after the
      truncation, and the handler goes on. */
  datatype WriteResult = Unopened | Partial | Written

  function WriteOps(record: Record, write: WriteResult): seq<Op> {
    match write
    case Unopened => []
    case Partial => [TruncateSession]
    case Written => [TruncateSession, WriteSession(record)]
  }

  function InstallOps(f: Fields, server: string, write: WriteResult): seq<Op> {
    if !CanInstall(f, server) then []
    else [AddRoute(Pin(f, server)), DeleteRoute(Original(f)), AddRoute(DefaultVia(f.tunInterface, f.tunPeer))]
         + WriteOps(Record(f.tunInterface, f.tunPeer, f.origGateway, f.origIface, server), write)
  }

  function AfterInstall(f: Fields, server: string): Fields {
    if !CanInstall(f, server) then f
    else f.(installedServer := server, installedPeer := f.tunPeer, installed := true)
  }

  predicate NeedsRefresh(f: Fields) {
    f.tunPeer != "" && f.tunPeer != f.installedPeer
  }

  function RefreshOps(f: Fields, write: WriteResult): seq<Op> {
    if !NeedsRefresh(f) then []
    else [DeleteRoute(DefaultVia(f.tunInterface, f.installedPeer)), AddRoute(DefaultVia(f.tunInterface, f.tunPeer))]
         + WriteOps(Record(f.tunInterface, f.tunPeer, f.origGateway, f.origIface, f.installedServer), write)
  }

  function AfterRefresh(f: Fields): Fields {
    if !NeedsRefresh(f) then f else f.(installedPeer := f.tunPeer)
  }

  /** A CONNECTED event installs the routes or, after a soft restart, refreshes them. */
  function ConnectedOps(f: Fields, server: string, write: WriteResult): seq<Op> {
    if f.installed then RefreshOps(f, write) else InstallOps(f, server, write)
  }

  function AfterConnected(f: Fields, server: string): Fields {
    if f.installed then AfterRefresh(f) else AfterInstall(f, server)
  }

  function RestoreOps(r: Record): seq<Op> {
    (if r.tunInterface != "" && r.tunPeer != "" then [DeleteRoute(DefaultVia(r.tunInterface, r.tunPeer))] else [])
    + (if r.origGateway != "" && r.origIface != "" then [AddRoute(DefaultVia(r.origIface, r.origGateway))] else [])
    + (if r.server != "" && r.origGateway != "" && r.origIface != ""
       then [DeleteRoute(HostVia(r.origIface, r.server, r.origGateway))] else [])
  }

  function Installed(f: Fields): Record {
    Record(f.tunInterface, f.installedPeer, f.origGateway, f.origIface, f.installedServer)
  }

  function RemoveOps(f: Fields): seq<Op> {
    if !f.installed then [] else RestoreOps(Installed(f)) + [UnlinkSession]
  }

  function AfterRemove(f: Fields): Fields {
    if !f.installed then f else f.(installed := false, installedServer := "", installedPeer := "")
  }

  function AfterCleanup(f: Fields): Fields {
    AfterRemove(f).(origGateway := "", origIface := "", tunPeer := "", tunInterface := "")
  }

  /** A torn file is removed without undoing anything. */
  function RecoverOps(w: World): seq<Op> {
    match w.session
    case Missing => []
    case Torn => [UnlinkSession]
    case Holds(record) => RestoreOps(record) + [UnlinkSession]
  }

  function Recovered(w: World): World {
    DoAll(w, RecoverOps(w))
  }

  // Whole sessions.

  datatype Event = LogLine(line: string) | Connected(server: string, write: WriteResult)

  function Handle(s: (Fields, World), e: Event): (Fields, World) {
    match e
    case LogLine(line) => (Scan(s.0, line), s.1)
    case Connected(server, write) => (AfterConnected(s.0, server), DoAll(s.1, ConnectedOps(s.0, server, write)))
  }

  function Session(s: (Fields, World), events: seq<Event>): (Fields, World) {
    if events == [] then s else Handle(Session(s, events[..|events| - 1]), events[|events| - 1])
  }

  /** The state a connect starts from: a fresh tun slot and nothing captured. */
  predicate Fresh(f: Fields) {
    f.tunInterface != "" && f == Fields("", "", "", "", "", false, f.tunInterface)
  }

  /** The slot was deleted and brought up anew, so no default route uses it. */
  ghost predicate SlotIsFree(t: set<Route>, tunInterface: string) {
    forall g :: DefaultVia(tunInterface, g) !in t
  }

  /** The table while the tunnel is up. */
  ghost function Tunnelled(t: set<Route>, f: Fields): set<Route> {
    (t + {Pin(f, f.installedServer)} - {Original(f)}) + {DefaultVia(f.tunInterface, f.installedPeer)}
  }

  /** A record of this session, if perhaps of an earlier tunnel peer. */
  predicate Matches(r: Record, f: Fields) {
    r.tunPeer != "" && r == Installed(f).(tunPeer := r.tunPeer)
  }

  /** At every handler boundary: the table is the tunnelled one exactly when routes are
      installed, whatever has been scanned since, and without them there is no file. */
  ghost predicate Boundary(t: set<Route>, tun: string, s: (Fields, World)) {
    var (f, w) := s;
    && f.tunInterface == tun
    && (f.origGateway == "" <==> f.origIface == "")
    && if f.installed
       then && f.origGateway != "" && f.installedPeer != "" && f.installedServer != ""
            && w.table == Tunnelled(t, f) && (w.session.Holds? ==> Matches(w.session.record, f))
       else w == World(t, Missing)
  }

  /** The session file exists exactly when routes are installed, and holds what is. */
  predicate InStep(s: (Fields, World)) {
    s.1.session == if s.0.installed then Holds(Installed(s.0)) else Missing
  }

  predicate Writes(e: Event) {
    e.Connected? ==> e.write == Written
  }

  /** The captured default was there, and no route of ours was. */
  ghost predicate NoClash(t: set<Route>, f: Fields) {
    Original(f) in t && Pin(f, f.installedServer) !in t
  }

  lemma DoNext(w: World, ops: seq<Op>, k: nat)
    requires k < |ops|
    ensures DoAll(w, ops[..k + 1]) == Do(DoAll(w, ops[..k]), ops[k])
  {
    assert ops[..k + 1][..k] == ops[..k];
  }

  /** The worlds between the effects of a handler. */
  lemma Prefixes(w: World, ops: seq<Op>)
    requires |ops| <= 5
    ensures DoAll(w, ops[..0]) == w
    ensures |ops| >= 1 ==> DoAll(w, ops[..1]) == Do(w, ops[0])
    ensures |ops| >= 2 ==> DoAll(w, ops[..2]) == Do(Do(w, ops[0]), ops[1])
    ensures |ops| >= 3 ==> DoAll(w, ops[..3]) == Do(Do(Do(w, ops[0]), ops[1]), ops[2])
    ensures |ops| >= 4 ==> DoAll(w, ops[..4]) == Do(Do(Do(Do(w, ops[0]), ops[1]), ops[2]), ops[3])
    ensures |ops| >= 5 ==> DoAll(w, ops[..5]) == Do(Do(Do(Do(Do(w, ops[0]), ops[1]), ops[2]), ops[3]), ops[4])
    ensures ops[..|ops|] == ops
  {
    hide Do;
    if |ops| >= 1 {
      DoNext(w, ops, 0);
    }
    if |ops| >= 2 {
      DoNext(w, ops, 1);
    }
    if |ops| >= 3 {
      DoNext(w, ops, 2);
    }
    if |ops| >= 4 {
      DoNext(w, ops, 3);
    }
    if |ops| >= 5 {
      DoNext(w, ops, 4);
    }
  }

  lemma ScanKeeps(f: Fields, line: string)
    ensures var g := Scan(f, line);
            && g.installed == f.installed && g.installedPeer == f.installedPeer
            && g.installedServer == f.installedServer && g.tunInterface == f.tunInterface
            && (f.origGateway != "" ==> g.origGateway == f.origGateway && g.origIface == f.origIface)
            && ((f.origGateway == "" <==> f.origIface == "") ==> (g.origGateway == "" <==> g.origIface == ""))
  {
    hide Find, Token;
  }

  lemma HandleKeepsBoundary(t: set<Route>, tun: string, s: (Fields, World), e: Event)
    requires SlotIsFree(t, tun) && Boundary(t, tun, s)
    ensures Boundary(t, tun, Handle(s, e))
    ensures InStep(s) && Writes(e) ==> InStep(Handle(s, e))
  {
    hide DoAll, Scan;
    var (f, w) := s;
    match e
    case LogLine(line) => ScanKeeps(f, line);
    case Connected(server, write) =>
      Prefixes(w, ConnectedOps(f, server, write));
      if f.installed && NeedsRefresh(f) {
        assert DefaultVia(f.tunInterface, f.installedPeer) !in t;
      }
  }

  lemma DoNothing(w: World)
    ensures DoAll(w, []) == w
  {
  }

  /** For any sequence of log lines and CONNECTED events the boundary invariant holds; and
      as long as the disk takes the session file, it is in step. */
  lemma {:induction false} SessionKeepsBoundary(t: set<Route>, f: Fields, events: seq<Event>)
    requires Fresh(f) && SlotIsFree(t, f.tunInterface)
    ensures Boundary(t, f.tunInterface, Session((f, World(t, Missing)), events))
    ensures (forall i :: 0 <= i < |events| ==> Writes(events[i])) ==> InStep(Session((f, World(t, Missing)), events))
  {
    hide Handle, Writes;
    if events != [] {
      var n := |events| - 1;
      SessionKeepsBoundary(t, f, events[..n]);
      HandleKeepsBoundary(t, f.tunInterface, Session((f, World(t, Missing)), events[..n]), events[n]);
    }
  }

  // What the complete parts of a record ask to delete, to add and to delete.

  function TunnelOf(r: Record): set<Route> {
    if r.tunInterface != "" && r.tunPeer != "" then {DefaultVia(r.tunInterface, r.tunPeer)} else {}
  }

  function OriginalOf(r: Record): set<Route> {
    if r.origGateway != "" && r.origIface != "" then {DefaultVia(r.origIface, r.origGateway)} else {}
  }

  function PinOf(r: Record): set<Route> {
    if r.server != "" && r.origGateway != "" && r.origIface != ""
    then {HostVia(r.origIface, r.server, r.origGateway)} else {}
  }

  /** What undoing leaves, from any table. */
  function Undone(t: set<Route>, r: Record): set<Route> {
    t - TunnelOf(r) + OriginalOf(r) - PinOf(r)
  }

  /** The tables between the effects of undoing. */
  ghost predicate Between(t: set<Route>, u: set<Route>, r: Record) {
    || u == t || u == t - TunnelOf(r) || u == t - TunnelOf(r) + OriginalOf(r)
    || u == Undone(t, r)
  }

  /** Whatever parts of a record are there: they are undone, and until its last effect the
      undoing leaves the file alone. */
  lemma Restoring(w: World, r: Record)
    ensures |RestoreOps(r)| <= 3
    ensures DoAll(w, RestoreOps(r) + [UnlinkSession]) == World(Undone(w.table, r), Missing)
    ensures forall k :: 0 <= k <= |RestoreOps(r)| ==>
              var v := DoAll(w, (RestoreOps(r) + [UnlinkSession])[..k]);
              v.session == w.session && Between(w.table, v.table, r)
  {
    hide DoAll;
    var ops := RestoreOps(r) + [UnlinkSession];
    Prefixes(w, ops);
    assert w.table + {} == w.table - {} == w.table;
    assert ops[..0] == [] && ops[..|ops|] == ops;
  }

  /** Routes are conserved: after any session and the cleanup, the table is the initial one
      exactly when nothing was installed or there was no clash, and no session file is left. */
  lemma CleanupRestoresTable(t: set<Route>, f: Fields, events: seq<Event>)
    requires Fresh(f) && SlotIsFree(t, f.tunInterface)
    ensures var (g, w) := Session((f, World(t, Missing)), events);
            var end := DoAll(w, RemoveOps(g));
            && end.session == Missing
            && (end.table == t <==> !g.installed || NoClash(t, g))
  {
    hide DoAll;
    SessionKeepsBoundary(t, f, events);
    var (g, w) := Session((f, World(t, Missing)), events);
    if g.installed {
      Restoring(w, Installed(g));
      UndoTunnelled(t, g);
    } else {
      DoNothing(w);
    }
  }

  predicate Complete(r: Record) {
    r.tunInterface != "" && r.tunPeer != "" && r.origGateway != "" && r.origIface != "" && r.server != ""
  }

  lemma UndoTunnelled(t: set<Route>, f: Fields)
    requires SlotIsFree(t, f.tunInterface) && Complete(Installed(f))
    ensures Undone(Tunnelled(t, f), Installed(f)) == t <==> NoClash(t, f)
  {
    var pin, original := Pin(f, f.installedServer), Original(f);
    var tunnel := DefaultVia(f.tunInterface, f.installedPeer);
    assert pin.mask != original.mask && pin.mask != tunnel.mask;
    assert tunnel !in t;
    var end := Undone(Tunnelled(t, f), Installed(f));
    assert pin !in end && original in end;
    if NoClash(t, f) {
      assert original != tunnel;
      assert end == t;
    }
  }

  /** The table of an installed session without its tunnel route. */
  function Untunnelled(t: set<Route>, f: Fields): set<Route> {
    t + {Pin(f, f.installedServer)} - {Original(f)}
  }

  ghost predicate OfSlot(routes: set<Route>, tun: string) {
    forall r :: r in routes ==> r == DefaultVia(tun, r.gateway)
  }

  /** While routes of a session are changed, whichever tunnel routes are there: recovery gives
      the initial table back if and only if the file can be read and names them. */
  lemma FileDecides(t: set<Route>, f: Fields, tunnel: set<Route>, v: World)
    requires SlotIsFree(t, f.tunInterface) && Complete(Installed(f)) && NoClash(t, f)
    requires OfSlot(tunnel, f.tunInterface) && v.table == Untunnelled(t, f) + tunnel
    requires v.session.Holds? ==> Matches(v.session.record, f)
    ensures Recovered(v).table == t <==> v.session.Holds? && tunnel <= TunnelOf(v.session.record)
  {
    hide DoAll, Recovered;
    var pin, original := Pin(f, f.installedServer), Original(f);
    assert pin.mask != original.mask;
    if v.session.Holds? {
      var r := v.session.record;
      assert Recovered(v).table == Undone(v.table, r) by { Restoring(v, r); RecoversRecord(v); }
      assert PinOf(r) == {pin} && OriginalOf(r) == {original};
      assert pin !in tunnel by { assert pin in tunnel ==> pin.mask == ANY; }
      assert tunnel !! t;
      assert original !in TunnelOf(r) && TunnelOf(r) !! t;
      assert Undone(v.table, r) == t + (tunnel - TunnelOf(r));
    } else {
      NoRecord(v);
      assert pin in v.table;
    }
  }

  lemma RecoversRecord(v: World)
    requires v.session.Holds?
    ensures Recovered(v) == DoAll(v, RestoreOps(v.session.record) + [UnlinkSession])
  {
  }

  /** A crash at a handler boundary is undone if and only if the session file is in step, and
      then just as by an orderly cleanup. */
  lemma BoundaryCrashRecovers(t: set<Route>, f: Fields, events: seq<Event>)
    requires Fresh(f) && SlotIsFree(t, f.tunInterface)
    ensures var (g, w) := Session((f, World(t, Missing)), events);
            && (!g.installed || NoClash(t, g) ==> (Recovered(w).table == t <==> InStep((g, w))))
            && (InStep((g, w)) ==> Recovered(w) == DoAll(w, RemoveOps(g)))
  {
    hide DoAll;
    SessionKeepsBoundary(t, f, events);
    var (g, w) := Session((f, World(t, Missing)), events);
    if g.installed {
      if NoClash(t, g) {
        var tunnel := DefaultVia(g.tunInterface, g.installedPeer);
        FileDecides(t, g, {tunnel}, w);
        assert w.session.Holds? ==> (tunnel in TunnelOf(w.session.record) <==> InStep((g, w)));
      }
    } else {
      DoNothing(w);
    }
  }

  /** One recovery, interrupted after some of its effects, and another one. */
  lemma RecoveryResumes(w: World, k: nat)
    requires k <= |RecoverOps(w)|
    ensures Recovered(DoAll(w, RecoverOps(w)[..k])) == Recovered(w)
  {
    hide DoAll;
    DoNothing(w);
    var ops := RecoverOps(w);
    var v := DoAll(w, ops[..k]);
    assert ops[..|ops|] == ops;
    match w.session
    case Missing =>
    case Torn =>
      Prefixes(w, ops);
      DoNothing(v);
    case Holds(r) =>
      Restoring(w, r);
      if k < |ops| {
        Restoring(v, r);
        UndoneAgain(w.table, v.table, r);
      } else {
        DoNothing(v);
      }
  }

  lemma UndoneAgain(t: set<Route>, u: set<Route>, r: Record)
    requires Between(t, u, r)
    ensures Undone(u, r) == Undone(t, r)
  {
  }

  /** A world in which recovery ran again and again, each time cut off after some effects. */
  function Interrupted(w: World, cuts: seq<nat>): World
    decreases |cuts|
  {
    if cuts == [] then w
    else
      var ops := RecoverOps(w);
      Interrupted(DoAll(w, ops[..if cuts[0] < |ops| then cuts[0] else |ops|]), cuts[1..])
  }

  /** Recovery may be interrupted any number of times, wherever, and for any content of the
      session file: running it once more ends where an undisturbed recovery ends. */
  lemma {:induction false} RecoveryIsReplayable(w: World, cuts: seq<nat>)
    ensures Recovered(Interrupted(w, cuts)) == Recovered(w)
    decreases |cuts|
  {
    hide DoAll, Recovered, RecoverOps;
    if cuts != [] {
      var ops := RecoverOps(w);
      var k := if cuts[0] < |ops| then cuts[0] else |ops|;
      RecoveryResumes(w, k);
      RecoveryIsReplayable(DoAll(w, ops[..k]), cuts[1..]);
    }
  }

  /** A crash inside the first CONNECTED handler is recoverable exactly before its first
      effect and after a complete write: the session file is written after the routes changed. */
  lemma CrashDuringInstall(t: set<Route>, s: (Fields, World), server: string, write: WriteResult, k: nat)
    requires Boundary(t, s.0.tunInterface, s) && CanInstall(s.0, server) && SlotIsFree(t, s.0.tunInterface)
    requires s.0.tunInterface != ""
    requires NoClash(t, AfterInstall(s.0, server)) && k <= |InstallOps(s.0, server, write)|
    ensures var crashed := DoAll(s.1, InstallOps(s.0, server, write)[..k]);
            Recovered(crashed).table == t <==> k == 0 || k == 5
  {
    hide DoAll;
    var (f, w) := s;
    var ops := InstallOps(f, server, write);
    var crashed := DoAll(w, ops[..k]);
    Prefixes(w, ops);
    if k < 5 {
      NoRecord(crashed);
      assert k >= 1 ==> Pin(f, server) in crashed.table;
    } else {
      var g := AfterInstall(f, server);
      FileDecides(t, g, {DefaultVia(g.tunInterface, g.installedPeer)}, crashed);
    }
  }

  /** Without a readable record recovery changes no route. */
  lemma NoRecord(w: World)
    requires !w.session.Holds?
    ensures Recovered(w) == World(w.table, Missing)
  {
    hide DoAll;
    DoNothing(w);
    Prefixes(w, [UnlinkSession]);
  }

  /** The tunnel routes after `k` effects of a refresh. */
  function TunnelDuring(f: Fields, k: nat): set<Route> {
    if k == 0 then {DefaultVia(f.tunInterface, f.installedPeer)}
    else if k == 1 then {}
    else {DefaultVia(f.tunInterface, f.tunPeer)}
  }

  /** A crash inside a refresh, whatever the file held before: it is undone exactly when the
      file can be read and names the tunnel route that is there, or none is. With a file that
      was in step, that is before the new route is added and after a complete write. */
  lemma CrashDuringRefresh(t: set<Route>, s: (Fields, World), write: WriteResult, k: nat)
    requires Boundary(t, s.0.tunInterface, s) && s.0.installed && NeedsRefresh(s.0)
    requires SlotIsFree(t, s.0.tunInterface) && s.0.tunInterface != ""
    requires NoClash(t, s.0) && k <= |RefreshOps(s.0, write)|
    ensures var crashed := DoAll(s.1, RefreshOps(s.0, write)[..k]);
            && (Recovered(crashed).table == t
                <==> crashed.session.Holds? && TunnelDuring(s.0, k) <= TunnelOf(crashed.session.record))
            && (InStep(s) ==> (Recovered(crashed).table == t <==> k <= 1 || k == 4))
  {
    hide DoAll, Recovered;
    var (f, w) := s;
    var ops := RefreshOps(f, write);
    var crashed := DoAll(w, ops[..k]);
    Prefixes(w, ops);
    var oldPeer, newPeer := DefaultVia(f.tunInterface, f.installedPeer), DefaultVia(f.tunInterface, f.tunPeer);
    assert oldPeer !in t && newPeer !in t;
    assert oldPeer !in Untunnelled(t, f);
    assert crashed.table == Untunnelled(t, f) + TunnelDuring(f, k);
    FileDecides(t, f, TunnelDuring(f, k), crashed);
    if crashed.session.Holds? {
      assert newPeer in TunnelOf(crashed.session.record) <==> crashed.session.record.tunPeer == f.tunPeer;
      assert oldPeer in TunnelOf(crashed.session.record) <==> crashed.session.record.tunPeer == f.installedPeer;
    }
  }

  /** A crash inside the removal: it is undone once every route has been put back, or if the
      file can be read and names the tunnel route, or that route has gone already. With a file
      that was in step it is always undone. */
  lemma CrashDuringRemove(t: set<Route>, s: (Fields, World), k: nat)
    requires Boundary(t, s.0.tunInterface, s) && s.0.installed
    requires SlotIsFree(t, s.0.tunInterface) && s.0.tunInterface != ""
    requires NoClash(t, s.0) && k <= |RemoveOps(s.0)|
    ensures var crashed := DoAll(s.1, RemoveOps(s.0)[..k]);
            && (Recovered(crashed).table == t <==> k >= 3 || (s.1.session.Holds? && (k >= 1 || InStep(s))))
            && (InStep(s) ==> Recovered(crashed).table == t)
  {
    hide DoAll, Recovered;
    var (f, w) := s;
    var ops := RemoveOps(f);
    var crashed := DoAll(w, ops[..k]);
    Prefixes(w, ops);
    var tunnel, original, pin := DefaultVia(f.tunInterface, f.installedPeer), Original(f), Pin(f, f.installedServer);
    assert tunnel !in t && pin.mask != original.mask && original != tunnel;
    if k <= 1 {
      FileDecides(t, f, if k == 0 then {tunnel} else {}, crashed);
      assert w.session.Holds? ==> (tunnel in TunnelOf(w.session.record) <==> InStep(s));
    } else {
      assert crashed.table == if k == 2 then t + {pin} else t;
      RemovedSoFar(t, f, crashed);
    }
  }

  /** When only the pin is left, or nothing. */
  lemma RemovedSoFar(t: set<Route>, f: Fields, v: World)
    requires SlotIsFree(t, f.tunInterface) && Complete(Installed(f)) && NoClash(t, f)
    requires v.table == t || v.table == t + {Pin(f, f.installedServer)}
    requires v.session.Holds? ==> Matches(v.session.record, f)
    ensures Recovered(v).table == t <==> v.table == t || v.session.Holds?
  {
    hide DoAll, Recovered;
    if v.session.Holds? {
      var r := v.session.record;
      Restoring(v, r);
      RecoversRecord(v);
      assert TunnelOf(r) !! t;
      assert Pin(f, f.installedServer).mask != Original(f).mask;
      assert Undone(v.table, r) == t;
    } else {
      NoRecord(v);
    }
  }

  // Sessions that reach those states.

  const FIRST_LINES: seq<Event> := [LogLine("ROUTE_GATEWAY g IFACE=i"), LogLine("route-gateway p")]

  /** The first occurrence of a text, when its first character does not occur before. */
  lemma {:induction false} FoundAt(s: string, sub: string, from: nat, p: nat)
    requires sub != "" && from <= p && p + |sub| <= |s| && s[p..p + |sub|] == sub
    requires forall i :: from <= i < p ==> s[i] != sub[0]
    ensures Find(s, sub, from) == Some(p)
    decreases p - from
  {
    if from < p {
      assert s[from] != sub[0] && s[from..from + |sub|][0] == s[from];
      FoundAt(s, sub, from + 1, p);
    }
  }

  lemma {:induction false} NotFound(s: string, sub: string, from: nat)
    requires sub != "" && forall i :: from <= i < |s| ==> s[i] != sub[0]
    ensures Find(s, sub, from) == None
    decreases |s| - from
  {
    if from + |sub| <= |s| {
      assert s[from] != sub[0] && s[from..from + |sub|][0] == s[from];
      NotFound(s, sub, from + 1);
    }
  }

  lemma OneToken(s: string, pos: nat)
    requires pos + 1 <= |s| && !Delimiter(s[pos]) && (pos + 1 == |s| || Delimiter(s[pos + 1]))
    ensures Token(s, pos) == [s[pos]]
  {
    assert TokenEnd(s, pos) == TokenEnd(s, pos + 1) == pos + 1;
  }

  lemma GatewayLine(f: Fields)
    requires f.origGateway == ""
    ensures Scan(f, "ROUTE_GATEWAY g IFACE=i") == f.(origGateway := "g", origIface := "i")
  {
    hide Find, Token;
    var line := "ROUTE_GATEWAY g IFACE=i";
    FoundAt(line, "ROUTE_GATEWAY ", 0, 0);
    FoundAt(line, "IFACE=", 0, 16);
    OneToken(line, 14);
    OneToken(line, 22);
    NotFound(line, "route-gateway ", 0);
  }

  lemma PeerLine(f: Fields, line: string, peer: char)
    requires line == "route-gateway " + [peer] && !Delimiter(peer) && peer != 'R'
    ensures Scan(f, line) == f.(tunPeer := [peer])
  {
    hide Find, Token;
    FoundAt(line, "route-gateway ", 0, 0);
    OneToken(line, 14);
    NotFound(line, "ROUTE_GATEWAY ", 0);
  }

  /** Two log lines after a fresh start lead to a state that can install without a clash, and
      the CONNECTED event and one more line to one that has to refresh. */
  lemma CrashStatesAreReached(tun: string, write: WriteResult)
    requires tun != ""
    ensures var t := {DefaultVia("i", "g")};
            var f := Fields("", "", "", "", "", false, tun);
            var before := Session((f, World(t, Missing)), FIRST_LINES);
            var after := Session((f, World(t, Missing)), FIRST_LINES + [Connected("s", write), LogLine("route-gateway q")]);
            && Fresh(f) && (tun != "i" ==> SlotIsFree(t, tun))
            && CanInstall(before.0, "s") && NoClash(t, AfterInstall(before.0, "s"))
            && after.0.installed && NeedsRefresh(after.0) && NoClash(t, after.0)
            && (write == Written ==> InStep(after))
  {
    hide Find, Token, Scan;
    var t := {DefaultVia("i", "g")};
    var f := Fields("", "", "", "", "", false, tun);
    var start := (f, World(t, Missing));
    var one, two := FIRST_LINES[..1], FIRST_LINES[..2];
    var events := FIRST_LINES + [Connected("s", write), LogLine("route-gateway q")];
    assert one[..0] == [] && two[..1] == one && two == FIRST_LINES;
    assert events[..3][..2] == FIRST_LINES && events[..3][2] == Connected("s", write);
    GatewayLine(f);
    var g := f.(origGateway := "g", origIface := "i");
    assert "route-gateway p" == "route-gateway " + ['p'];
    PeerLine(g, "route-gateway p", 'p');
    var h := g.(tunPeer := "p");
    assert Session(start, []) == start;
    assert Session(start, one) == (g, World(t, Missing));
    assert Session(start, two) == (h, World(t, Missing));
    var i := AfterInstall(h, "s");
    Prefixes(World(t, Missing), InstallOps(h, "s", write));
    assert Session(start, events[..3]).0 == i;
    assert "route-gateway q" == "route-gateway " + ['q'];
    PeerLine(i, "route-gateway q", 'q');
    assert HostVia("i", "s", "g").mask != DefaultVia("i", "g").mask;
  }
}

/** The backend's own routing state and the effects of its methods. */
module OpenVpnRoutes {
  import opened Options
  import opened Routing
  import opened OpenVpnRoutesSpec

  /** The first whitespace-delimited token at or after `pos`. */
  method TakeToken(s: string, pos: nat) returns (token: string)
    requires pos <= |s|
    ensures token == Token(s, pos)
  {
    var start := pos;
    while start < |s| && Blank(s[start])
      invariant pos <= start <= |s|
      invariant SkipBlanks(s, start) == SkipBlanks(s, pos)
    {
      start := start + 1;
    }
    var end := start;
    while end < |s|
      invariant start <= end <= |s|
      invariant TokenEnd(s, end) == TokenEnd(s, start)
    {
      if Delimiter(s[end]) {
        break;
      }
      end := end + 1;
    }
    token := s[start..end];
  }

  /** `string::find`: the loop over start positions. */
  method FindIn(s: string, sub: string, from: nat) returns (r: Option<nat>)
    ensures r == Find(s, sub, from)
  {
    var i := from;
    while i + |sub| <= |s|
      invariant from <= i
      invariant Find(s, sub, i) == Find(s, sub, from)
    {
      if s[i..i + |sub|] == sub {
        return Some(i);
      }
      i := i + 1;
    }
    return None;
  }

  class Backend {
    var origGateway: string
    var origIface: string
    var tunPeer: string
    var installedServer: string
    var installedPeer: string
    var installed: bool
    var tunInterface: string
    // The system around the backend.
    var table: set<Route>
    var session: SessionFile
    /** Every single effect on the system so far, in order. */
    ghost var effects: seq<Op>

    ghost function F(): Fields
      reads this
    {
      Fields(origGateway, origIface, tunPeer, installedServer, installedPeer, installed, tunInterface)
    }

    ghost function W(): World
      reads this
    {
      World(table, session)
    }

    constructor (tunInterface: string, table: set<Route>)
      requires tunInterface != ""
      ensures Fresh(F()) && F().tunInterface == tunInterface && W() == World(table, Missing) && effects == []
    {
      origGateway, origIface, tunPeer, installedServer, installedPeer := "", "", "", "", "";
      installed := false;
      this.tunInterface, this.table, this.session, effects := tunInterface, table, Missing, [];
    }

    method ScanLogLine(line: string)
      modifies this
      ensures F() == Scan(old(F()), line) && W() == old(W()) && effects == old(effects)
    {
      hide Find, Token;
      CaptureGateway(line);
      CapturePeer(line);
    }

    method CaptureGateway(line: string)
      modifies this`origGateway, this`origIface
      ensures F() == ScanGateway(old(F()), line)
    {
      hide Find, Token;
      if origGateway == "" {
        var pos := FindIn(line, "ROUTE_GATEWAY ", 0);
        if pos.Some? {
          var gateway := TakeToken(line, pos.value + 14);
          var ifacePos := FindIn(line, "IFACE=", pos.value);
          var iface := "";
          if ifacePos.Some? {
            iface := TakeToken(line, ifacePos.value + 6);
          }
          if gateway != "" && iface != "" {
            origGateway := gateway;
            origIface := iface;
          }
        }
      }
    }

    method CapturePeer(line: string)
      modifies this`tunPeer
      ensures F() == ScanPeer(old(F()), line)
    {
      hide Find, Token;
      var pos := FindIn(line, "route-gateway ", 0);
      if pos.Some? {
        var peer := TakeToken(line, pos.value + 14);
        if peer != "" && peer != tunPeer {
          tunPeer := peer;
        }
      }
    }

    /** The `route` tool. */
    method RunRoute(add: bool, r: Route)
      modifies this`table, this`effects
      ensures W() == Do(old(W()), if add then AddRoute(r) else DeleteRoute(r))
      ensures effects == old(effects) + [if add then AddRoute(r) else DeleteRoute(r)]
    {
      table := if add then table + {r} else table - {r};
      effects := effects + [if add then AddRoute(r) else DeleteRoute(r)];
    }

    /** Pin the server, drop the carrier default, add the tunnel default, then record. */
    method InstallRoutes(server: string, write: WriteResult)
      modifies this
      ensures F() == (if old(installed) then old(F()) else AfterInstall(old(F()), server))
      ensures W() == (if old(installed) then old(W()) else DoAll(old(W()), InstallOps(old(F()), server, write)))
      ensures effects == old(effects) + (if old(installed) then [] else InstallOps(old(F()), server, write))
    {
      hide DoAll;
      ghost var w := W();
      Prefixes(w, InstallOps(F(), server, write));
      if installed {
        return;
      }
      if origGateway == "" || origIface == "" || tunPeer == "" || server == "" {
        return;
      }
      SwapDefault(server);
      installedServer := server;
      installedPeer := tunPeer;
      installed := true;
      var _ := WriteSessionFile(write);
    }

    /** The three route changes of an installation. */
    method SwapDefault(server: string)
      modifies this`table, this`effects
      ensures W() == Do(Do(Do(old(W()), AddRoute(Pin(F(), server))), DeleteRoute(Original(F()))),
                        AddRoute(DefaultVia(tunInterface, tunPeer)))
      ensures effects == old(effects) + [AddRoute(Pin(F(), server)), DeleteRoute(Original(F())),
                                         AddRoute(DefaultVia(tunInterface, tunPeer))]
    {
      RunRoute(true, HostVia(origIface, server, origGateway));
      RunRoute(false, DefaultVia(origIface, origGateway));
      RunRoute(true, DefaultVia(tunInterface, tunPeer));
    }

    /** Opening the file truncates it. The record stores the scanned peer, which at both
        call sites is the installed one. Nobody looks at the answer. */
    method WriteSessionFile(write: WriteResult) returns (ok: bool)
      modifies this`session, this`effects
      ensures var record := Record(tunInterface, tunPeer, origGateway, origIface, installedServer);
              && effects == old(effects) + WriteOps(record, write)
              && session == match write case Unopened => old(session) case Partial => Torn case Written => Holds(record)
      ensures ok <==> write == Written
    {
      var record := Record(tunInterface, tunPeer, origGateway, origIface, installedServer);
      if write == Unopened {
        return false;
      }
      session, effects := Torn, effects + [TruncateSession];
      if write == Partial {
        return false;
      }
      session, effects := Holds(record), effects + [WriteSession(record)];
      return true;
    }

    method RemoveSessionFile()
      modifies this`session, this`effects
      ensures session == Missing && effects == old(effects) + [UnlinkSession]
    {
      session, effects := Missing, effects + [UnlinkSession];
    }

    method RefreshTunRoute(write: WriteResult)
      modifies this
      ensures F() == AfterRefresh(old(F()))
      ensures W() == DoAll(old(W()), RefreshOps(old(F()), write))
      ensures effects == old(effects) + RefreshOps(old(F()), write)
    {
      hide DoAll;
      Prefixes(W(), RefreshOps(F(), write));
      if tunPeer == "" || tunPeer == installedPeer {
        return;
      }
      RunRoute(false, DefaultVia(tunInterface, installedPeer));
      RunRoute(true, DefaultVia(tunInterface, tunPeer));
      installedPeer := tunPeer;
      var _ := WriteSessionFile(write);
    }

    /** The routing part of the CONNECTED handler. */
    method OnConnected(server: string, write: WriteResult)
      modifies this
      ensures F() == AfterConnected(old(F()), server)
      ensures W() == DoAll(old(W()), ConnectedOps(old(F()), server, write))
      ensures effects == old(effects) + ConnectedOps(old(F()), server, write)
    {
      if installed {
        RefreshTunRoute(write);
      } else {
        InstallRoutes(server, write);
      }
    }

    method ApplyRestore(r: Record)
      modifies this`table, this`effects
      ensures W() == DoAll(old(W()), RestoreOps(r))
      ensures effects == old(effects) + RestoreOps(r)
    {
      hide DoAll;
      Prefixes(W(), RestoreOps(r));
      if r.tunInterface != "" && r.tunPeer != "" {
        RunRoute(false, DefaultVia(r.tunInterface, r.tunPeer));
      }
      if r.origGateway != "" && r.origIface != "" {
        RunRoute(true, DefaultVia(r.origIface, r.origGateway));
      }
      if r.server != "" && r.origGateway != "" && r.origIface != "" {
        RunRoute(false, HostVia(r.origIface, r.server, r.origGateway));
      }
    }

    method RemoveRoutes()
      modifies this
      ensures F() == AfterRemove(old(F()))
      ensures W() == DoAll(old(W()), RemoveOps(old(F())))
      ensures effects == old(effects) + RemoveOps(old(F()))
    {
      hide DoAll, RestoreOps;
      if !installed {
        DoNothing(W());
        return;
      }
      ghost var w, record := W(), Installed(F());
      ApplyRestore(Record(tunInterface, installedPeer, origGateway, origIface, installedServer));
      Undo(w, record);
      installed := false;
      RemoveSessionFile();
      installedServer := "";
      installedPeer := "";
    }

    method Cleanup()
      modifies this
      ensures F() == AfterCleanup(old(F()))
      ensures W() == DoAll(old(W()), RemoveOps(old(F())))
      ensures effects == old(effects) + RemoveOps(old(F()))
    {
      RemoveRoutes();
      origGateway, origIface, tunPeer, tunInterface := "", "", "", "";
    }

    /** Start-up: undo whatever a crashed run recorded. A file without a whole record is only
        removed; one that cannot be opened is left alone. */
    method RecoverIfCrashed(opens: bool)
      modifies this`table, this`session, this`effects
      ensures opens || old(session) == Missing ==>
        W() == Recovered(old(W())) && effects == old(effects) + RecoverOps(old(W()))
      ensures !opens && old(session) != Missing ==> W() == old(W()) && effects == old(effects)
    {
      hide DoAll, RestoreOps;
      ghost var w := W();
      if session != Missing && !opens {
        return;
      }
      match session {
        case Missing =>
          DoNothing(w);
        case Torn =>
          Prefixes(w, [UnlinkSession]);
          assert [UnlinkSession][..1] == [UnlinkSession];
          RemoveSessionFile();
        case Holds(record) =>
          ApplyRestore(record);
          Undo(w, record);
          RemoveSessionFile();
      }
    }
  }

  lemma Undo(w: World, r: Record)
    ensures DoAll(w, RestoreOps(r) + [UnlinkSession]) == DoAll(w, RestoreOps(r)).(session := Missing)
  {
    hide RestoreOps;
    var ops := RestoreOps(r) + [UnlinkSession];
    assert ops[..|ops| - 1] == RestoreOps(r);
  }

  /** One whole session over the backend object: the table comes back. */
  method RunSession(b: Backend, events: seq<Event>)
    requires Fresh(b.F()) && SlotIsFree(b.table, b.tunInterface) && b.session == Missing
    modifies b
    ensures b.session == Missing
    ensures var end := Session((old(b.F()), old(b.W())), events).0;
            b.table == old(b.table) <==> !end.installed || NoClash(old(b.table), end)
  {
    ghost var f, w := b.F(), b.W();
    for i := 0 to |events|
      invariant (b.F(), b.W()) == Session((f, w), events[..i])
    {
      assert events[..i + 1][..i] == events[..i];
      match events[i] {
        case LogLine(line) => b.ScanLogLine(line);
        case Connected(server, write) => b.OnConnected(server, write);
      }
    }
    assert events[..|events|] == events;
    CleanupRestoresTable(w.table, f, events);
    b.Cleanup();
  }
}
