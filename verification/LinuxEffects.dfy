/** What the Linux operations achieve when their commands work: the routes that are asked
    for are there afterwards, with the next hops that the session needs. */
module LinuxEffects {
  import opened Text
  import opened RouteTable
  import opened LinuxRoutes
  import opened LinuxGuarantees
  import opened LinuxVpn

  ghost predicate AddsWork(k: Kernel) { forall n :: !k.faults.add(n) }

  // The prefix has an entry: the one that it had, or else one with this next hop.
  ghost predicate Placed(t: Table, u: Table, p: Prefix, hop: NextHop) {
    p in u && u[p] == if p in t then t[p] else hop
  }

  // Whatever is new has this next hop.
  ghost predicate NewOnlyWith(t: Table, u: Table, hop: NextHop) {
    Extends(t, u) && forall p :: p in u && p !in t ==> u[p] == hop
  }

  // ---------- Each operation ----------

  lemma {:induction false} BypassAllPlaces(m: State, ips: seq<Option<string>>)
    requires AddsWork(m.kernel) && m.dev != ""
    ensures var t, n := m.kernel.table, BypassAll(m, ips);
      && n.kernel.faults == m.kernel.faults
      && NewOnlyWith(t, n.kernel.table, if m.gw != "" then Via(m.gw, m.dev) else Device(m.dev))
      && forall ip, p :: Some(ip) in ips && m.denote(ip) == Some(p) ==> p in n.kernel.table
    decreases |ips|
  {
    if ips != [] {
      BypassAllPlaces(if ips[0].Some? then BypassOne(m, ips[0].value) else m, ips[1..]);
      assert ips == [ips[0]] + ips[1..];
    }
  }

  // Every resolved address of an endpoint has a route the way the old default went.
  lemma EndpointIsBypassed(m: State, host: string, ips: seq<Option<string>>)
    requires AddsWork(m.kernel) && m.dev != "" && host != ""
    ensures var t, u := m.kernel.table, AddBypassEndpoint(m, host, ips).kernel.table;
      && NewOnlyWith(t, u, if m.gw != "" then Via(m.gw, m.dev) else Device(m.dev))
      && forall ip, p :: Some(ip) in ips && m.denote(ip) == Some(p) ==>
           Placed(t, u, p, if m.gw != "" then Via(m.gw, m.dev) else Device(m.dev))
  {
    BypassAllPlaces(m, ips);
  }

  function ServerHop(m: State, bypass: bool): NextHop {
    if !bypass then Device(m.tun) else if m.gw != "" then Via(m.gw, m.dev) else Device(m.dev)
  }

  lemma DnsOnePlaces(m: State, ip: string, bypass: bool)
    requires AddsWork(m.kernel) && (bypass ==> m.dev != "")
    ensures var t, n, text := m.kernel.table, DnsOne(m, ip, bypass), TrimSpace(ip);
      && n.kernel.faults == m.kernel.faults && SameArguments(m, n)
      && NewOnlyWith(t, n.kernel.table, ServerHop(m, bypass))
      && forall p :: text != "" && m.denote(text) == Some(p) ==> p in n.kernel.table
  {
    hide TrimSpace;
  }

  lemma {:induction false} DnsPlaces(m: State, ips: seq<string>, bypass: bool)
    requires AddsWork(m.kernel) && (bypass ==> m.dev != "")
    ensures var t, n := m.kernel.table, AddDNSServerRoutes(m, ips, bypass);
      && NewOnlyWith(t, n.kernel.table, ServerHop(m, bypass))
      && forall s, p :: s in ips && TrimSpace(s) != "" && m.denote(TrimSpace(s)) == Some(p) ==> p in n.kernel.table
    decreases |ips|
  {
    hide TrimSpace, DnsOne;
    if ips != [] {
      DnsOnePlaces(m, ips[0], bypass);
      DnsPlaces(DnsOne(m, ips[0], bypass), ips[1..], bypass);
      assert ips == [ips[0]] + ips[1..];
    }
  }

  // Every DNS server has a route: through the tunnel, or around it if it is to be bypassed.
  lemma ServersArePlaced(m: State, servers: seq<string>, bypass: bool)
    requires AddsWork(m.kernel) && (bypass ==> m.dev != "")
    ensures var t, u := m.kernel.table, AddDNSServerRoutes(m, servers, bypass).kernel.table;
      forall s, p :: s in servers && TrimSpace(s) != "" && m.denote(TrimSpace(s)) == Some(p) ==>
        Placed(t, u, p, if !bypass then Device(m.tun) else if m.gw != "" then Via(m.gw, m.dev) else Device(m.dev))
  {
    DnsPlaces(m, servers, bypass);
  }

  // An exclude leaves as the old default did, and is unreachable where there was none.
  lemma ExcludeIsPlaced(m: State, dest: string, p: Prefix)
    requires AddsWork(m.kernel) && TrimSpace(dest) != "" && m.denote(TrimSpace(dest)) == Some(p)
    ensures Placed(m.kernel.table, AddExclude(m, dest).kernel.table, p,
      if m.dev == "" then Reject else if m.gw == "" then Device(m.dev) else Via(m.gw, m.dev))
  {
  }

  lemma ExtraRouteIsPlaced(m: State, dest: string, p: Prefix)
    requires AddsWork(m.kernel) && TrimSpace(dest) != "" && m.denote(TrimSpace(dest)) == Some(p)
    ensures Placed(m.kernel.table, AddExtraRoute(m, dest).kernel.table, p, Device(m.tun))
  {
  }

  lemma SplitIsPlaced(m: State)
    requires AddsWork(m.kernel)
    ensures var t, u := m.kernel.table, AddSplitDefault(m).kernel.table;
      Placed(t, u, Prefix(0, 1), Device(m.tun)) && Placed(t, u, Prefix(1, 1), Device(m.tun))
  {
  }

  // The kill switch takes hold exactly when the blackhole's add works and the default
  // route is out of its way: it was not there, or could be deleted as it was known.
  lemma KillSwitchTakesHoldIff(start: State)
    requires !start.killSwitchAdded
    ensures var t, c, f := start.kernel.table, start.kernel.clock, start.kernel.faults;
      var n, before := AddKillSwitchRoute(start), if start.gw != "" then Via(start.gw, start.dev) else Device(start.dev);
      && n.killSwitch
      && (n.killSwitchAdded <==>
            !f.add(c + 1) && (DEFAULT in t ==> !f.del(c) && (start.dev == "" || t[DEFAULT] == before)))
      && (n.killSwitchAdded ==> DEFAULT in n.kernel.table && n.kernel.table[DEFAULT] == Blackhole)
  {
  }

  // ---------- The installed session ----------

  // Which routes the options ask for, and that a kill switch takes a default route.
  lemma PlanAsks(start: State, cfg: Config, d: Option<Prefix>)
    ensures BypassAsked(start, Plan(cfg), d) <==>
      || (cfg.defaultRoute && start.dev != "" && exists e, ip ::
            e in [cfg.api, cfg.connect] && e.host != "" && Some(ip) in e.ips && start.denote(ip) == d)
      || (cfg.defaultRoute && exists x :: x in cfg.excludes && TrimSpace(x) != "" && start.denote(TrimSpace(x)) == d)
    ensures TunnelAsked(start, Plan(cfg), d) <==>
      || (cfg.defaultRoute && d in {Some(Prefix(0, 1)), Some(Prefix(1, 1))})
      || (exists x :: x in cfg.extras && TrimSpace(x) != "" && start.denote(TrimSpace(x)) == d)
      || (!cfg.defaultRoute && exists x :: x in cfg.dns && TrimSpace(x) != "" && start.denote(TrimSpace(x)) == d)
  {
    hide TrimSpace;
    BypassOps(start, cfg, d);
    TunnelOps(start, cfg, d);
  }

  lemma InPlan(cfg: Config, op: Op)
    ensures op in Plan(cfg) <==>
      || (cfg.defaultRoute &&
           (|| op == BypassEndpoint(cfg.api.host, cfg.api.ips) || op == BypassEndpoint(cfg.connect.host, cfg.connect.ips)
            || op == SplitDefault || (op.Exclude? && op.dest in cfg.excludes)))
      || (op.ExtraRoute? && op.dest in cfg.extras)
      || (!cfg.defaultRoute && cfg.dns != [] && op == DnsRoutes(cfg.dns, false))
  {
    assert op in Excludes(cfg.excludes) <==> op.Exclude? && op.dest in cfg.excludes by {
      if op.Exclude? && op.dest in cfg.excludes {
        var i :| 0 <= i < |cfg.excludes| && cfg.excludes[i] == op.dest;
        assert Excludes(cfg.excludes)[i] == op;
      }
    }
    assert op in Extras(cfg.extras) <==> op.ExtraRoute? && op.dest in cfg.extras by {
      if op.ExtraRoute? && op.dest in cfg.extras {
        var i :| 0 <= i < |cfg.extras| && cfg.extras[i] == op.dest;
        assert Extras(cfg.extras)[i] == op;
      }
    }
  }

  lemma BypassOps(start: State, cfg: Config, d: Option<Prefix>)
    ensures BypassAsked(start, Plan(cfg), d) <==>
      || (cfg.defaultRoute && start.dev != "" && exists e, ip ::
            e in [cfg.api, cfg.connect] && e.host != "" && Some(ip) in e.ips && start.denote(ip) == d)
      || (cfg.defaultRoute && exists x :: x in cfg.excludes && TrimSpace(x) != "" && start.denote(TrimSpace(x)) == d)
  {
    hide TrimSpace, Plan;
    if BypassAsked(start, Plan(cfg), d) {
      var op :| op in Plan(cfg) && AsksBypass(start, op, d);
      InPlan(cfg, op);
      if op.BypassEndpoint? {
        var e := if op == BypassEndpoint(cfg.api.host, cfg.api.ips) then cfg.api else cfg.connect;
        assert e in [cfg.api, cfg.connect];
      }
    }
    forall e, ip | e in [cfg.api, cfg.connect] && e.host != "" && Some(ip) in e.ips && start.denote(ip) == d
      ensures start.dev != "" && cfg.defaultRoute ==> BypassAsked(start, Plan(cfg), d)
    {
      InPlan(cfg, BypassEndpoint(e.host, e.ips));
      assert start.dev != "" ==> AsksBypass(start, BypassEndpoint(e.host, e.ips), d);
    }
    forall x | x in cfg.excludes && TrimSpace(x) != "" && start.denote(TrimSpace(x)) == d
      ensures cfg.defaultRoute ==> BypassAsked(start, Plan(cfg), d)
    {
      InPlan(cfg, Exclude(x));
      assert AsksBypass(start, Exclude(x), d);
    }
  }

  lemma TunnelOps(start: State, cfg: Config, d: Option<Prefix>)
    ensures TunnelAsked(start, Plan(cfg), d) <==>
      || (cfg.defaultRoute && d in {Some(Prefix(0, 1)), Some(Prefix(1, 1))})
      || (exists x :: x in cfg.extras && TrimSpace(x) != "" && start.denote(TrimSpace(x)) == d)
      || (!cfg.defaultRoute && exists x :: x in cfg.dns && TrimSpace(x) != "" && start.denote(TrimSpace(x)) == d)
  {
    hide TrimSpace, Plan;
    if TunnelAsked(start, Plan(cfg), d) {
      var op :| op in Plan(cfg) && AsksTunnel(start, op, d);
      InPlan(cfg, op);
    }
    if cfg.defaultRoute && d in {Some(Prefix(0, 1)), Some(Prefix(1, 1))} {
      InPlan(cfg, SplitDefault);
      assert AsksTunnel(start, SplitDefault, d);
    }
    forall x | x in cfg.extras && TrimSpace(x) != "" && start.denote(TrimSpace(x)) == d
      ensures TunnelAsked(start, Plan(cfg), d)
    {
      InPlan(cfg, ExtraRoute(x));
      assert AsksTunnel(start, ExtraRoute(x), d);
    }
    forall x | x in cfg.dns && TrimSpace(x) != "" && start.denote(TrimSpace(x)) == d
      ensures !cfg.defaultRoute ==> TunnelAsked(start, Plan(cfg), d)
    {
      InPlan(cfg, DnsRoutes(cfg.dns, false));
      assert AsksTunnel(start, DnsRoutes(cfg.dns, false), d);
    }
  }

  // A kill switch is installed only for a default route, and first.
  lemma KillSwitchIffAsked(start: State, cfg: Config)
    requires Fresh(start)
    ensures var m := Installed(start, cfg);
      && (m.killSwitch <==> cfg.defaultRoute && cfg.killSwitch)
      && (m.killSwitchAdded <==> cfg.defaultRoute && cfg.killSwitch && AddKillSwitchRoute(start).killSwitchAdded)
  {
    PlanHasNoKillSwitch(cfg);
    var first := if cfg.defaultRoute && cfg.killSwitch then AddKillSwitchRoute(start) else start;
    hide Plan;
    RunFlags(first, Plan(cfg));
  }

  lemma {:induction false} RunFlags(m: State, ops: seq<Op>)
    requires NoKillSwitch(ops)
    ensures Run(m, ops).killSwitch == m.killSwitch && Run(m, ops).killSwitchAdded == m.killSwitchAdded
    decreases |ops|
  {
    if ops != [] {
      assert ops[0] in ops;
      hide Apply;
      ApplyFlags(m, ops[0]);
      RunFlags(Apply(m, ops[0]), ops[1..]);
    }
  }

  lemma ApplyFlags(m: State, op: Op)
    requires !op.KillSwitch?
    ensures Apply(m, op).killSwitch == m.killSwitch && Apply(m, op).killSwitchAdded == m.killSwitchAdded
  {
    hide TrimSpace;
    match op
    case BypassEndpoint(host, ips) => BypassFlags(m, ips);
    case DnsRoutes(servers, bypass) => DnsFlags(m, servers, bypass);
    case _ =>
  }

  lemma {:induction false} BypassFlags(m: State, ips: seq<Option<string>>)
    ensures var n := BypassAll(m, ips); n == m.(bypass := n.bypass, kernel := n.kernel)
    decreases |ips|
  {
    if ips != [] {
      BypassFlags(if ips[0].Some? then BypassOne(m, ips[0].value) else m, ips[1..]);
    }
  }

  lemma {:induction false} DnsFlags(m: State, ips: seq<string>, bypass: bool)
    ensures var n := AddDNSServerRoutes(m, ips, bypass); n == m.(bypass := n.bypass, dnsTun := n.dnsTun, kernel := n.kernel)
    decreases |ips|
  {
    hide TrimSpace;
    if ips != [] {
      DnsFlags(DnsOne(m, ips[0], bypass), ips[1..], bypass);
    }
  }

  // After the installation, traffic to the endpoints goes the way the old default went,
  // and so keeps out of the tunnel that it carries.
  lemma EndpointsAreReached(start: State, cfg: Config, e: Endpoint, ip: string, a: Address)
    requires cfg.defaultRoute && AddsWork(start.kernel) && start.dev != ""
    requires e in [cfg.api, cfg.connect] && e.host != "" && Some(ip) in e.ips
    requires start.denote(ip) == Some(Prefix(a, 32)) && Prefix(a, 32) !in start.kernel.table
    ensures Lookup(Installed(start, cfg).kernel.table, a) ==
      Some(if start.gw != "" then Via(start.gw, start.dev) else Device(start.dev))
  {
    var p := Prefix(a, 32);
    var first := if cfg.killSwitch then AddKillSwitchRoute(start) else start;
    assert p !in first.kernel.table && first.kernel.faults == start.kernel.faults;
    EndpointsPlaced(first, cfg, e, ip, p);
    hide Plan, Endpoints, AddKillSwitchRoute, Run;
    PlanExtends(first, cfg);
    assert Covering(a, 32) == p;
  }

  lemma PlanExtends(m: State, cfg: Config)
    requires cfg.defaultRoute
    ensures Extends(Run(m, Endpoints(cfg)).kernel.table, Run(m, Plan(cfg)).kernel.table)
  {
    var s := Run(m, Endpoints(cfg));
    var rest := Excludes(cfg.excludes) + Extras(cfg.extras);
    PlanRest(m, cfg);
    assert Extends(s.kernel.table, AddSplitDefault(s).kernel.table);
    hide Plan, Endpoints, AddSplitDefault, Run;
    RunExtends(AddSplitDefault(s), rest);
  }

  lemma EndpointsPlaced(m: State, cfg: Config, e: Endpoint, ip: string, p: Prefix)
    requires AddsWork(m.kernel) && m.dev != "" && p !in m.kernel.table
    requires e in [cfg.api, cfg.connect] && e.host != "" && Some(ip) in e.ips && m.denote(ip) == Some(p)
    ensures var t := Run(m, Endpoints(cfg)).kernel.table;
      p in t && t[p] == if m.gw != "" then Via(m.gw, m.dev) else Device(m.dev)
  {
    RunFullTunnel(m, cfg);
    var n := AddBypassEndpoint(m, cfg.api.host, cfg.api.ips);
    BypassAllPlaces(m, cfg.api.ips);
    BypassFlags(m, cfg.api.ips);
    BypassAllPlaces(n, cfg.connect.ips);
    hide BypassAll, Run;
  }
}
