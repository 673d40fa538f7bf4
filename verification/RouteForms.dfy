/** Log lines, route commands and resolver files in literal terms: what is read from any line,
    and which routes with which fields are added and deleted. */
module RouteForms {
  import opened Options
  import opened Routing
  import opened OpenVpnRoutesSpec
  import WgSpec = WireGuardRoutesSpec
  import WireGuardRoutes

  // Log lines.

  predicate HasAt(text: string, key: string, i: nat) {
    i + |key| <= |text| && text[i..i + |key|] == key
  }

  /** From `from` on, `key` occurs first at `p`. */
  ghost predicate FirstAt(text: string, key: string, from: nat, p: nat) {
    from <= p && HasAt(text, key, p) && forall i: nat :: from <= i < p ==> !HasAt(text, key, i)
  }

  ghost predicate Absent(text: string, key: string, from: nat) {
    forall i: nat :: from <= i ==> !HasAt(text, key, i)
  }

  lemma {:induction false} FindsFirst(text: string, key: string, from: nat, p: nat)
    requires FirstAt(text, key, from, p)
    ensures Find(text, key, from) == Some(p)
    decreases p - from
  {
    if from < p {
      assert !HasAt(text, key, from);
      FindsFirst(text, key, from + 1, p);
    }
  }

  lemma {:induction false} FindsNothing(text: string, key: string, from: nat)
    requires Absent(text, key, from)
    ensures Find(text, key, from) == None
    decreases |text| - from
  {
    if from + |key| <= |text| {
      assert !HasAt(text, key, from);
      FindsNothing(text, key, from + 1);
    }
  }

  /** The characters that end a token. */
  predicate Ends(c: char) {
    c == ' ' || c == '\t' || c == ',' || c == '\'' || c == '"' || c == '\n' || c == '\r'
  }

  /** From `pos` on the text has blanks or tabs, then the token, then its end. */
  ghost predicate TokenAt(text: string, pos: nat, gap: nat, token: string) {
    var start := pos + gap;
    var end := start + |token|;
    && token != "" && end <= |text| && text[start..end] == token
    && (forall i :: pos <= i < start ==> text[i] == ' ' || text[i] == '\t')
    && (forall i :: start <= i < end ==> !Ends(text[i]))
    && (end == |text| || Ends(text[end]))
  }

  lemma {:induction false} SkipsGap(text: string, pos: nat, start: nat)
    requires pos <= start < |text| && text[start] != ' ' && text[start] != '\t'
    requires forall i :: pos <= i < start ==> text[i] == ' ' || text[i] == '\t'
    ensures SkipBlanks(text, pos) == start
    decreases start - pos
  {
    if pos < start {
      SkipsGap(text, pos + 1, start);
    }
  }

  lemma {:induction false} EndsThere(text: string, start: nat, end: nat)
    requires start <= end <= |text| && (end == |text| || Ends(text[end]))
    requires forall i :: start <= i < end ==> !Ends(text[i])
    ensures TokenEnd(text, start) == end
    decreases end - start
  {
    if start < end {
      assert !Ends(text[start]);
      EndsThere(text, start + 1, end);
    }
  }

  lemma TokenForm(text: string, pos: nat, gap: nat, token: string)
    requires TokenAt(text, pos, gap, token)
    ensures Token(text, pos) == token
  {
    var start := pos + gap;
    assert !Ends(text[start]);
    SkipsGap(text, pos, start);
    EndsThere(text, start, start + |token|);
  }

  /** From any line that names a peer, the peer is taken. */
  lemma PeerScanned(f: Fields, text: string, p: nat, gap: nat, peer: string)
    requires FirstAt(text, "route-gateway ", 0, p) && TokenAt(text, p + 14, gap, peer)
    ensures Scan(f, text).tunPeer == peer
  {
    hide Find, Token, FirstAt;
    FindsFirst(text, "route-gateway ", 0, p);
    TokenForm(text, p + 14, gap, peer);
  }

  /** The same for a line put together from what is before, the peer and what is after. */
  lemma PeerForm(f: Fields, pre: string, peer: string, d: char, tail: string)
    requires peer != "" && forall i :: 0 <= i < |peer| ==>
      peer[i] != ' ' && peer[i] != '\t' && peer[i] != ',' && peer[i] != '\'' && peer[i] != '"'
      && peer[i] != '\n' && peer[i] != '\r'
    requires d == ' ' || d == '\t' || d == ',' || d == '\'' || d == '"' || d == '\n' || d == '\r'
    requires FirstAt(pre + "route-gateway " + peer + [d] + tail, "route-gateway ", 0, |pre|)
    ensures Scan(f, pre + "route-gateway " + peer + [d] + tail).tunPeer == peer
  {
    hide Scan, FirstAt, TokenAt;
    var text := pre + "route-gateway " + peer + [d] + tail;
    TokenBetween(pre + "route-gateway ", peer, d, tail);
    PeerScanned(f, text, |pre|, 0, peer);
  }

  lemma TokenBetween(before: string, token: string, d: char, after: string)
    requires token != "" && Ends(d) && forall i :: 0 <= i < |token| ==> !Ends(token[i])
    ensures TokenAt(before + token + [d] + after, |before|, 0, token)
  {
    hide Ends;
    var text := before + token + [d] + after;
    assert text[|before|..|before| + |token|] == token;
    assert forall i :: |before| <= i < |before| + |token| ==> text[i] == token[i - |before|];
    assert text[|before| + |token|] == d;
  }

  /** From the first line that names both, gateway and interface are taken together. */
  lemma GatewayScanned(f: Fields, text: string, p: nat, gap: nat, gateway: string, q: nat, gap2: nat, iface: string)
    requires f.origGateway == ""
    requires FirstAt(text, "ROUTE_GATEWAY ", 0, p) && TokenAt(text, p + 14, gap, gateway)
    requires FirstAt(text, "IFACE=", p, q) && TokenAt(text, q + 6, gap2, iface)
    ensures Scan(f, text).origGateway == gateway && Scan(f, text).origIface == iface
  {
    hide Find, Token, FirstAt;
    FindsFirst(text, "ROUTE_GATEWAY ", 0, p);
    FindsFirst(text, "IFACE=", p, q);
    TokenForm(text, p + 14, gap, gateway);
    TokenForm(text, q + 6, gap2, iface);
  }

  lemma GatewayForm(f: Fields, pre: string, gateway: string, d: char, mid: string, iface: string, e: char, tail: string)
    requires f.origGateway == "" && gateway != "" && iface != ""
    requires forall i :: 0 <= i < |gateway| ==>
      gateway[i] != ' ' && gateway[i] != '\t' && gateway[i] != ',' && gateway[i] != '\'' && gateway[i] != '"'
      && gateway[i] != '\n' && gateway[i] != '\r'
    requires forall i :: 0 <= i < |iface| ==>
      iface[i] != ' ' && iface[i] != '\t' && iface[i] != ',' && iface[i] != '\'' && iface[i] != '"'
      && iface[i] != '\n' && iface[i] != '\r'
    requires d == ' ' || d == '\t' || d == ',' || d == '\'' || d == '"' || d == '\n' || d == '\r'
    requires e == ' ' || e == '\t' || e == ',' || e == '\'' || e == '"' || e == '\n' || e == '\r'
    requires var text := pre + "ROUTE_GATEWAY " + gateway + [d] + mid + "IFACE=" + iface + [e] + tail;
             && FirstAt(text, "ROUTE_GATEWAY ", 0, |pre|)
             && FirstAt(text, "IFACE=", |pre|, |pre| + 14 + |gateway| + 1 + |mid|)
    ensures var text := pre + "ROUTE_GATEWAY " + gateway + [d] + mid + "IFACE=" + iface + [e] + tail;
            Scan(f, text).origGateway == gateway && Scan(f, text).origIface == iface
  {
    hide Scan, FirstAt, TokenAt;
    var text := pre + "ROUTE_GATEWAY " + gateway + [d] + mid + "IFACE=" + iface + [e] + tail;
    var first, second := pre + "ROUTE_GATEWAY ", pre + "ROUTE_GATEWAY " + gateway + [d] + mid + "IFACE=";
    TokenBetween(first, gateway, d, mid + "IFACE=" + iface + [e] + tail);
    TokenBetween(second, iface, e, tail);
    assert text == first + gateway + [d] + (mid + "IFACE=" + iface + [e] + tail);
    assert |second| == |pre| + 14 + |gateway| + 1 + |mid| + 6;
    GatewayScanned(f, text, |pre|, 0, gateway, |second| - 6, 0, iface);
  }

  /** A gateway once taken stays; without the words nothing is taken; without an interface
      the gateway is not taken either. */
  lemma ScanLeaves(f: Fields, text: string, p: nat)
    ensures f.origGateway != "" ==>
              Scan(f, text).origGateway == f.origGateway && Scan(f, text).origIface == f.origIface
    ensures Absent(text, "ROUTE_GATEWAY ", 0) || (FirstAt(text, "ROUTE_GATEWAY ", 0, p) && Absent(text, "IFACE=", p)) ==>
              Scan(f, text).origGateway == f.origGateway && Scan(f, text).origIface == f.origIface
    ensures Absent(text, "route-gateway ", 0) ==> Scan(f, text).tunPeer == f.tunPeer
  {
    hide Find, Token, FirstAt, Absent;
    if Absent(text, "ROUTE_GATEWAY ", 0) {
      FindsNothing(text, "ROUTE_GATEWAY ", 0);
    } else if FirstAt(text, "ROUTE_GATEWAY ", 0, p) && Absent(text, "IFACE=", p) {
      FindsFirst(text, "ROUTE_GATEWAY ", 0, p);
      FindsNothing(text, "IFACE=", p);
    }
    if Absent(text, "route-gateway ", 0) {
      FindsNothing(text, "route-gateway ", 0);
    }
  }

  // The OpenVPN backend's route commands.

  /** Installing: which routes, field by field, and when. */
  lemma InstallForm(f: Fields, server: string)
    ensures if !f.installed && f.origGateway != "" && f.origIface != "" && f.tunPeer != "" && server != ""
            then
              var ops := [AddRoute(Route(f.origIface, server, f.origGateway, "255.255.255.255")),
                          DeleteRoute(Route(f.origIface, "0.0.0.0", f.origGateway, "0.0.0.0")),
                          AddRoute(Route(f.tunInterface, "0.0.0.0", f.tunPeer, "0.0.0.0"))];
              var record := Record(f.tunInterface, f.tunPeer, f.origGateway, f.origIface, server);
              && InstallOps(f, server, Unopened) == ops
              && InstallOps(f, server, Partial) == ops + [TruncateSession]
              && InstallOps(f, server, Written) == ops + [TruncateSession, WriteSession(record)]
              && AfterInstall(f, server) == f.(installedServer := server, installedPeer := f.tunPeer, installed := true)
            else AfterInstall(f, server) == f && forall w :: InstallOps(f, server, w) == []
  {
  }

  lemma RefreshForm(f: Fields)
    ensures if f.tunPeer != "" && f.tunPeer != f.installedPeer
            then
              var ops := [DeleteRoute(Route(f.tunInterface, "0.0.0.0", f.installedPeer, "0.0.0.0")),
                          AddRoute(Route(f.tunInterface, "0.0.0.0", f.tunPeer, "0.0.0.0"))];
              var record := Record(f.tunInterface, f.tunPeer, f.origGateway, f.origIface, f.installedServer);
              && RefreshOps(f, Unopened) == ops
              && RefreshOps(f, Partial) == ops + [TruncateSession]
              && RefreshOps(f, Written) == ops + [TruncateSession, WriteSession(record)]
              && AfterRefresh(f) == f.(installedPeer := f.tunPeer)
            else AfterRefresh(f) == f && forall w :: RefreshOps(f, w) == []
  {
  }

  /** Undoing a whole record, and the parts of one. */
  lemma RestoreForm(r: Record)
    ensures var tunnel := DeleteRoute(Route(r.tunInterface, "0.0.0.0", r.tunPeer, "0.0.0.0"));
            var original := AddRoute(Route(r.origIface, "0.0.0.0", r.origGateway, "0.0.0.0"));
            var pin := DeleteRoute(Route(r.origIface, r.server, r.origGateway, "255.255.255.255"));
            && (tunnel in RestoreOps(r) <==> r.tunInterface != "" && r.tunPeer != "")
            && (original in RestoreOps(r) <==> r.origGateway != "" && r.origIface != "")
            && (pin in RestoreOps(r) <==> r.server != "" && r.origGateway != "" && r.origIface != "")
            && (r.tunInterface != "" && r.tunPeer != "" && r.origGateway != "" && r.origIface != "" && r.server != "" ==>
                  RestoreOps(r) == [tunnel, original, pin])
            && forall op :: op in RestoreOps(r) ==> op == tunnel || op == original || op == pin
  {
  }

  /** What the removal undoes and what the cleanup forgets. */
  lemma CleanupForm(f: Fields)
    ensures RemoveOps(f) == if f.installed
                            then RestoreOps(Record(f.tunInterface, f.installedPeer, f.origGateway, f.origIface, f.installedServer))
                                 + [UnlinkSession]
                            else []
    ensures var g := AfterCleanup(f);
            && !g.installed && g.origGateway == "" && g.origIface == "" && g.tunPeer == "" && g.tunInterface == ""
            && (f.installed ==> g.installedServer == "" && g.installedPeer == "")
  {
  }

  /** What a CONNECTED event does, and what recovery does with each kind of file. */
  lemma ConnectedForm(f: Fields, server: string, write: WriteResult, w: World)
    ensures ConnectedOps(f, server, write) == if f.installed then RefreshOps(f, write) else InstallOps(f, server, write)
    ensures AfterConnected(f, server) == if f.installed then AfterRefresh(f) else AfterInstall(f, server)
    ensures RecoverOps(World(w.table, Missing)) == [] && RecoverOps(World(w.table, Torn)) == [UnlinkSession]
    ensures w.session.Holds? ==> RecoverOps(w) == RestoreOps(w.session.record) + [UnlinkSession]
  {
    hide RefreshOps, InstallOps, RestoreOps;
  }

  /** What each effect does to the table and to the file. */
  lemma EffectForm(w: World, r: Route, s: Route, record: Record)
    ensures s in Do(w, AddRoute(r)).table <==> s == r || s in w.table
    ensures s in Do(w, DeleteRoute(r)).table <==> s != r && s in w.table
    ensures Do(w, AddRoute(r)).session == Do(w, DeleteRoute(r)).session == w.session
    ensures Do(w, TruncateSession) == World(w.table, Torn) && Do(w, UnlinkSession) == World(w.table, Missing)
    ensures Do(w, WriteSession(record)) == World(w.table, Holds(record))
  {
  }

  // The WireGuard backend's routes.

  /** When routes are installed, and which: an endpoint pin, one route per range, and the
      carrier's default out when a range is everything. */
  lemma WireGuardForm(t: set<Route>, c: WgSpec.Config, g: Option<WgSpec.Gateway>, r: Route)
    ensures var full := exists i :: 0 <= i < |c.allowed| && c.allowed[i].net == "0.0.0.0" && c.allowed[i].mask == "0.0.0.0";
            && (WgSpec.Installs(c, g) <==> c.allowed != [] && (full ==> g.Some?))
            && (r in WgSpec.InstalledTable(t, c, g) <==>
                  || (exists i :: 0 <= i < |c.allowed|
                                  && r == Route(c.tunInterface, c.allowed[i].net, c.tunSelf, c.allowed[i].mask))
                  || ((r in t || (g.Some? && c.endpoint != ""
                                  && r == Route(g.value.iface, c.endpoint, g.value.address, "255.255.255.255")))
                      && !(full && g.Some? && r == Route(g.value.iface, "0.0.0.0", g.value.address, "0.0.0.0"))))
  {
    var full := exists i :: 0 <= i < |c.allowed| && c.allowed[i].net == "0.0.0.0" && c.allowed[i].mask == "0.0.0.0";
    assert full <==> c.FullTunnel() by {
      assert forall i :: 0 <= i < |c.allowed| ==>
        (c.allowed[i].IsDefault() <==> c.allowed[i].net == "0.0.0.0" && c.allowed[i].mask == "0.0.0.0");
    }
    assert r in c.Tunnel() <==> exists i :: 0 <= i < |c.allowed|
                                           && r == Route(c.tunInterface, c.allowed[i].net, c.tunSelf, c.allowed[i].mask) by {
      assert forall i :: 0 <= i < |c.allowed| ==>
        c.RouteFor(c.allowed[i]) == Route(c.tunInterface, c.allowed[i].net, c.tunSelf, c.allowed[i].mask);
    }
  }

  /** The resolver file an apply leaves, and where the original is then. */
  lemma ResolverForm(d: WgSpec.Disk, nameserver: string)
    ensures var after := WireGuardRoutes.AppliedDns(d, nameserver, true);
            && after.conf == Some("# Set by Sotoportego for the WireGuard tunnel\nnameserver " + nameserver + "\n")
            && after.backup == (if d.backup.Some? then d.backup else d.conf)
    ensures var after := WireGuardRoutes.AppliedDns(d, nameserver, false);
            after == if d.backup.None? && d.conf.Some? then WgSpec.Disk(None, d.conf) else d
    ensures WgSpec.MoveBack(d) == if d.backup.Some? then WgSpec.Disk(d.backup, None) else d
  {
  }
}
