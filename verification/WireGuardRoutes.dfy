/** The WireGuard backend's routes: an endpoint pin, the default swap of a full tunnel and
    one route per allowed range. */
module WireGuardRoutesSpec {
  import opened Options
  import opened Routing

  /** One parsed AllowedIPs range. */
  datatype Allowed = Allowed(net: string, mask: string) {
    predicate IsDefault() {
      net == ANY && mask == ANY
    }
  }

  /** What a connect knows: the tun slot and its address, the resolved endpoint, the ranges. */
  datatype Config = Config(tunInterface: string, tunSelf: string, endpoint: string, allowed: seq<Allowed>) {
    function RouteFor(a: Allowed): Route {
      Route(tunInterface, a.net, tunSelf, a.mask)
    }

    function Tunnel(): set<Route> {
      set i | 0 <= i < |allowed| :: RouteFor(allowed[i])
    }

    predicate FullTunnel() {
      exists i :: 0 <= i < |allowed| && allowed[i].IsDefault()
    }
  }

  /** The carrier's default, as the table shows it. */
  datatype Gateway = Gateway(address: string, iface: string) {
    function Original(): Route {
      DefaultVia(iface, address)
    }

    function PinOf(endpoint: string): Route {
      HostVia(iface, endpoint, address)
    }
  }

  /** Nothing is installed without a range, nor for a full tunnel without a gateway. */
  predicate Installs(c: Config, g: Option<Gateway>) {
    c.allowed != [] && (g.Some? || !c.FullTunnel())
  }

  predicate Pins(c: Config, g: Option<Gateway>) {
    g.Some? && c.endpoint != ""
  }

  predicate Replaces(c: Config, g: Option<Gateway>) {
    g.Some? && c.FullTunnel()
  }

  function PinSet(c: Config, g: Option<Gateway>): set<Route> {
    if Pins(c, g) then {g.value.PinOf(c.endpoint)} else {}
  }

  function DefaultSet(c: Config, g: Option<Gateway>): set<Route> {
    if Replaces(c, g) then {g.value.Original()} else {}
  }

  function InstalledTable(t: set<Route>, c: Config, g: Option<Gateway>): set<Route> {
    t + PinSet(c, g) - DefaultSet(c, g) + c.Tunnel()
  }

  function RemovedTable(t: set<Route>, c: Config, g: Option<Gateway>): set<Route> {
    t - c.Tunnel() + DefaultSet(c, g) - PinSet(c, g)
  }

  /** The pin was not there before, and a tunnel route was there only if it is the very
      default that was swapped out. */
  ghost predicate NoClash(t: set<Route>, c: Config, g: Option<Gateway>) {
    && PinSet(c, g) !! t
    && c.Tunnel() * t <= DefaultSet(c, g)
  }

  /** For every list of ranges, with duplicates or not, split or full tunnel, gateway found
      or not: installing and removing restores the table exactly when nothing clashed. */
  lemma RoutesAreConserved(t: set<Route>, c: Config, g: Option<Gateway>)
    requires g.Some? ==> g.value.Original() in t
    ensures RemovedTable(InstalledTable(t, c, g), c, g) == t <==> NoClash(t, c, g)
  {
    hide Config.Tunnel, Config.FullTunnel;
    var end := RemovedTable(InstalledTable(t, c, g), c, g);
    PinIsNotDefault(c, g);
    assert end == t - c.Tunnel() - PinSet(c, g) + DefaultSet(c, g);
    assert DefaultSet(c, g) <= t;
  }

  lemma PinIsNotDefault(c: Config, g: Option<Gateway>)
    ensures PinSet(c, g) !! DefaultSet(c, g)
  {
    if g.Some? {
      assert g.value.PinOf(c.endpoint).mask != g.value.Original().mask;
    }
  }

  // The resolver file.

  /** The two files; None is a missing file. */
  datatype Disk = Disk(conf: Option<string>, backup: Option<string>)

  /** How far an apply has got. */
  datatype Phase = Idle | Aside | Emptied

  /** One file operation, or a crash. `Begin` moves the original aside unless a backup is
      already there; a missing file cannot be moved. */
  datatype FileStep = Begin | CreateFails | Create | Write(text: string) | Restore | Crash

  predicate StepEnabled(p: Phase, s: FileStep) {
    match s
    case Begin => p.Idle?
    case CreateFails => p.Aside?
    case Create => p.Aside?
    case Write(_) => p.Emptied?
    case Restore => p.Idle?
    case Crash => true
  }

  function MoveAside(d: Disk): Disk {
    if d.backup.None? && d.conf.Some? then Disk(None, d.conf) else d
  }

  function MoveBack(d: Disk): Disk {
    if d.backup.Some? then Disk(d.backup, None) else d
  }

  function StepDisk(d: Disk, s: FileStep): Disk {
    match s
    case Begin => MoveAside(d)
    case Create => d.(conf := Some(""))
    case Write(text) => d.(conf := Some(text))
    case Restore => MoveBack(d)
    case _ => d
  }

  function StepPhase(s: FileStep): Phase {
    match s
    case Begin => Aside
    case Create => Emptied
    case _ => Idle
  }

  function PhaseAfter(steps: seq<FileStep>): Phase {
    if steps == [] then Idle else StepPhase(steps[|steps| - 1])
  }

  function DiskAfter(d: Disk, steps: seq<FileStep>): Disk {
    if steps == [] then d else StepDisk(DiskAfter(d, steps[..|steps| - 1]), steps[|steps| - 1])
  }

  /** Applies, restores and crashes in any order, cut off between any two operations. */
  ghost predicate IsFileRun(steps: seq<FileStep>) {
    forall i :: 0 <= i < |steps| ==> StepEnabled(PhaseAfter(steps[..i]), steps[i])
  }

  predicate Safe(original: string, d: Disk) {
    d.backup == Some(original) || (d.backup.None? && d.conf == Some(original))
  }

  /** In every state between any two file operations of any run the original is safe:
      in the backup, or in place. While an apply is under way it is in the backup. */
  lemma {:induction false} OriginalIsSafe(original: string, steps: seq<FileStep>)
    requires IsFileRun(steps)
    ensures var d := DiskAfter(Disk(Some(original), None), steps);
            Safe(original, d) && (!PhaseAfter(steps).Idle? ==> d.backup == Some(original))
  {
    if steps != [] {
      var n := |steps| - 1;
      assert forall i :: 0 <= i < n ==> steps[..n][..i] == steps[..i];
      OriginalIsSafe(original, steps[..n]);
      assert StepEnabled(PhaseAfter(steps[..n]), steps[n]);
    }
  }

  /** Recovery restores the original resolver file exactly when there was one, or the
      tunnel never got to write its own. */
  lemma RecoveryRestoresOriginal(original: Option<string>, steps: seq<FileStep>)
    requires IsFileRun(steps)
    ensures MoveBack(DiskAfter(Disk(original, None), steps)) == Disk(original, None)
            <==> original.Some? || Create !in steps
  {
    match original
    case Some(text) => OriginalIsSafe(text, steps);
    case None => NoOriginal(steps);
  }

  lemma {:induction false} NoOriginal(steps: seq<FileStep>)
    requires IsFileRun(steps)
    ensures var d := DiskAfter(Disk(None, None), steps);
            if Create in steps then d.conf.Some? || d.backup.Some?
            else d == Disk(None, None) && !PhaseAfter(steps).Emptied?
  {
    if steps != [] {
      var n := |steps| - 1;
      assert forall i :: 0 <= i < n ==> steps[..n][..i] == steps[..i];
      NoOriginal(steps[..n]);
      assert StepEnabled(PhaseAfter(steps[..n]), steps[n]);
      assert Create in steps <==> Create in steps[..n] || steps[n] == Create;
    }
  }
}

/** The backend's route and resolver methods. */
module WireGuardRoutes {
  import opened Options
  import opened Routing
  import opened WireGuardRoutesSpec

  class Backend {
    const config: Config
    var installed: bool
    var replacedDefault: bool
    var origGateway: string
    var origIface: string
    // The system around the backend.
    var table: set<Route>
    var disk: Disk

    constructor (config: Config, table: set<Route>, disk: Disk)
      ensures !installed && this.config == config && this.table == table && this.disk == disk
    {
      this.config, this.table, this.disk := config, table, disk;
      installed, replacedDefault, origGateway, origIface := false, false, "", "";
    }

    /** The gateway found at install time, as the fields remember it. */
    ghost function Remembered(): Option<Gateway>
      reads this
    {
      if origGateway == "" then None else Some(Gateway(origGateway, origIface))
    }

    method AnyDefault() returns (found: bool)
      ensures found <==> config.FullTunnel()
    {
      found := false;
      for i := 0 to |config.allowed|
        invariant found <==> exists k :: 0 <= k < i && config.allowed[k].IsDefault()
      {
        found := found || config.allowed[i].IsDefault();
      }
    }

    method AddTunnelRoutes()
      modifies this`table
      ensures table == old(table) + config.Tunnel()
    {
      for i := 0 to |config.allowed|
        invariant table == old(table) + (set k | 0 <= k < i :: config.RouteFor(config.allowed[k]))
      {
        table := table + {config.RouteFor(config.allowed[i])};
      }
    }

    method DeleteTunnelRoutes()
      modifies this`table
      ensures table == old(table) - config.Tunnel()
    {
      for i := 0 to |config.allowed|
        invariant table == old(table) - (set k | 0 <= k < i :: config.RouteFor(config.allowed[k]))
      {
        table := table - {config.RouteFor(config.allowed[i])};
      }
    }

    /** `gateway` is what parsing the route table yielded, `nameserver` the first IPv4 one
        of the configuration, `writable` whether the resolver file could be opened. */
    method InstallRoutes(gateway: Option<Gateway>, nameserver: Option<string>, writable: bool)
      requires gateway.Some? ==> gateway.value.address != "" && gateway.value.Original() in table
      modifies this
      ensures installed <==> old(installed) || Installs(config, gateway)
      ensures old(installed) || !installed ==> table == old(table) && disk == old(disk)
      ensures old(installed) ==> Remembered() == old(Remembered()) && replacedDefault == old(replacedDefault)
      ensures installed && !old(installed) ==>
        && table == InstalledTable(old(table), config, gateway)
        && Remembered() == gateway && (replacedDefault <==> Replaces(config, gateway))
        && disk == (if replacedDefault && nameserver.Some? then AppliedDns(old(disk), nameserver.value, writable)
                    else old(disk))
    {
      if installed {
        return;
      }
      if config.allowed == [] {
        return;
      }
      var anyDefault := AnyDefault();
      origGateway, origIface, replacedDefault := "", "", false;
      if gateway.Some? {
        origGateway, origIface := gateway.value.address, gateway.value.iface;
      } else if anyDefault {
        return;
      }
      if config.endpoint != "" && origGateway != "" {
        table := table + {HostVia(origIface, config.endpoint, origGateway)};
      }
      if anyDefault && origGateway != "" {
        table := table - {DefaultVia(origIface, origGateway)};
        replacedDefault := true;
      }
      AddTunnelRoutes();
      if replacedDefault && nameserver.Some? {
        ApplyDns(nameserver.value, writable);
      }
      installed := true;
    }

    method RemoveRoutes()
      modifies this
      ensures !installed
      ensures !old(installed) ==> table == old(table) && disk == old(disk)
      ensures old(installed) ==> disk == MoveBack(old(disk))
      ensures old(installed && (replacedDefault <==> Replaces(config, Remembered()))) ==>
        table == RemovedTable(old(table), config, old(Remembered()))
    {
      if !installed {
        return;
      }
      RestoreDns();
      DeleteTunnelRoutes();
      if replacedDefault && origGateway != "" {
        table := table + {DefaultVia(origIface, origGateway)};
      }
      if config.endpoint != "" && origGateway != "" {
        table := table - {HostVia(origIface, config.endpoint, origGateway)};
      }
      installed := false;
      replacedDefault := false;
    }

    /** The original is moved aside once; an existing backup is a previous original. */
    method ApplyDns(nameserver: string, writable: bool)
      modifies this`disk
      ensures disk == AppliedDns(old(disk), nameserver, writable)
    {
      if disk.backup.None? {
        disk := MoveAside(disk);
      }
      if !writable {
        return;
      }
      disk := disk.(conf := Some(""));
      disk := disk.(conf := Some(ResolverText(nameserver)));
    }

    method RestoreDns()
      modifies this`disk
      ensures disk == MoveBack(old(disk))
    {
      if disk.backup.Some? {
        disk := Disk(disk.backup, None);
      }
    }

    /** Start-up: put a stranded original back. */
    method RecoverIfCrashed()
      modifies this`disk
      ensures disk == MoveBack(old(disk))
    {
      RestoreDns();
    }
  }

  function ResolverText(nameserver: string): string {
    "# Set by Sotoportego for the WireGuard tunnel\nnameserver " + nameserver + "\n"
  }

  /** An apply, as the file operations it consists of. */
  function ApplySteps(nameserver: string, writable: bool): seq<FileStep> {
    if writable then [Begin, Create, Write(ResolverText(nameserver))] else [Begin, CreateFails]
  }

  function AppliedDns(d: Disk, nameserver: string, writable: bool): Disk {
    var aside := MoveAside(d);
    if writable then aside.(conf := Some(ResolverText(nameserver))) else aside
  }

  lemma DiskNext(d: Disk, steps: seq<FileStep>, n: nat)
    requires n < |steps|
    ensures DiskAfter(d, steps[..n + 1]) == StepDisk(DiskAfter(d, steps[..n]), steps[n])
    ensures PhaseAfter(steps[..n + 1]) == StepPhase(steps[n])
  {
    assert steps[..n + 1][..n] == steps[..n];
  }

  lemma ApplyIsItsSteps(d: Disk, nameserver: string, writable: bool)
    ensures DiskAfter(d, ApplySteps(nameserver, writable)) == AppliedDns(d, nameserver, writable)
    ensures IsFileRun(ApplySteps(nameserver, writable))
  {
    var steps := ApplySteps(nameserver, writable);
    assert steps[..|steps|] == steps;
    DiskNext(d, steps, 0);
    DiskNext(d, steps, 1);
    if writable {
      DiskNext(d, steps, 2);
    }
  }

  /** Connect then disconnect: the routing table and the resolver file are as they were. */
  method UpAndDown(b: Backend, gateway: Option<Gateway>, nameserver: Option<string>, writable: bool)
    requires !b.installed && b.disk.conf.Some? && b.disk.backup.None?
    requires gateway.Some? ==> gateway.value.address != "" && gateway.value.Original() in b.table
    modifies b
    ensures !b.installed && b.disk == old(b.disk)
    ensures b.table == old(b.table) <==> !Installs(b.config, gateway) || NoClash(old(b.table), b.config, gateway)
  {
    hide InstalledTable, RemovedTable, NoClash;
    RoutesAreConserved(b.table, b.config, gateway);
    b.InstallRoutes(gateway, nameserver, writable);
    b.RemoveRoutes();
  }
}
