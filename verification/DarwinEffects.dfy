/** What the macOS operations achieve when their commands work: the routes that are asked
    for are there afterwards, with the next hops that the session needs. */
module DarwinEffects {
  import opened Text
  import opened RouteTable
  import opened DarwinRoutes
  import opened DarwinLedgers
  import opened DarwinRequests
  import opened DarwinGuarantees
  import opened DarwinVpn

  ghost predicate AddsWork(k: Kernel) { forall n :: !k.faults.add(n) }

  ghost predicate Extends(t: Table, u: Table) { forall p :: p in t ==> p in u && u[p] == t[p] }

  // The prefix has an entry: the one that it had, or else one with this next hop.
  ghost predicate Placed(t: Table, u: Table, p: Prefix, hop: NextHop) {
    p in u && u[p] == if p in t then t[p] else hop
  }

  // Whatever is new has this next hop.
  ghost predicate NewOnlyWith(t: Table, u: Table, hop: NextHop) {
    Extends(t, u) && forall p :: p in u && p !in t ==> u[p] == hop
  }

  // ---------- Each operation ----------

  lemma BypassOnePlaces(m: State, ip: string)
    requires AddsWork(m.kernel)
    ensures var t, n := m.kernel.table, BypassOne(m, ip);
      && n.kernel.faults == m.kernel.faults
      && NewOnlyWith(t, n.kernel.table, Gateway(m.gw))
      && (forall p :: m.denote(Host(ip)) == Some(p) ==> p in n.kernel.table)
      && (forall p :: p in n.kernel.table && p !in t ==> Some(p) in HostSet(m.denote, n.ctrlBypass))
      && HostSet(m.denote, m.ctrlBypass) <= HostSet(m.denote, n.ctrlBypass)
  {
    hide HostSet;
    HostsGrow(m.denote, m.ctrlBypass, ip);
  }

  lemma {:induction false} BypassAllPlaces(m: State, ips: seq<Option<string>>)
    requires AddsWork(m.kernel)
    ensures var t, n := m.kernel.table, BypassAll(m, ips);
      && n.kernel.faults == m.kernel.faults
      && NewOnlyWith(t, n.kernel.table, Gateway(m.gw))
      && (forall ip, p :: Some(ip) in ips && m.denote(Host(ip)) == Some(p) ==> p in n.kernel.table)
      && (forall p :: p in n.kernel.table && p !in t ==> Some(p) in HostSet(m.denote, n.ctrlBypass))
      && HostSet(m.denote, m.ctrlBypass) <= HostSet(m.denote, n.ctrlBypass)
    decreases |ips|
  {
    hide BypassOne, HostSet;
    if ips != [] {
      if ips[0].Some? {
        BypassOnePlaces(m, ips[0].value);
        SameAfterOne(m, ips[0].value);
        BypassAllPlaces(BypassOne(m, ips[0].value), ips[1..]);
      } else {
        BypassAllPlaces(m, ips[1..]);
      }
      assert ips == [ips[0]] + ips[1..];
    }
  }

  lemma SameAfterOne(m: State, ip: string)
    ensures BypassOne(m, ip).gw == m.gw && BypassOne(m, ip).denote == m.denote
  {
  }

  // Every resolved address of an endpoint has a host route to the old gateway.
  lemma EndpointIsBypassed(m: State, host: string, ips: seq<Option<string>>)
    requires AddsWork(m.kernel) && m.gw != "" && host != ""
    ensures var t, u := m.kernel.table, AddBypassEndpoint(m, host, ips).kernel.table;
      && NewOnlyWith(t, u, Gateway(m.gw))
      && forall ip, p :: Some(ip) in ips && m.denote(Host(ip)) == Some(p) ==> Placed(t, u, p, Gateway(m.gw))
  {
    BypassAllPlaces(m, ips);
  }

  lemma DnsOnePlaces(m: State, ip: string, bypass: bool)
    requires AddsWork(m.kernel) && (bypass ==> m.gw != "")
    ensures var t, n, text := m.kernel.table, DnsOne(m, ip, bypass), TrimSpace(ip);
      && n.kernel.faults == m.kernel.faults && n.gw == m.gw && n.tun == m.tun && n.denote == m.denote
      && NewOnlyWith(t, n.kernel.table, if bypass then Gateway(m.gw) else Device(m.tun))
      && forall p :: text != "" && '/' !in text && m.denote(Host(text)) == Some(p) ==> p in n.kernel.table
  {
    hide TrimSpace;
  }

  lemma {:induction false} DnsPlaces(m: State, ips: seq<string>, bypass: bool)
    requires AddsWork(m.kernel) && (bypass ==> m.gw != "")
    ensures var t, n := m.kernel.table, AddDNSServerRoutes(m, ips, bypass);
      && NewOnlyWith(t, n.kernel.table, if bypass then Gateway(m.gw) else Device(m.tun))
      && forall s, p :: s in ips && TrimSpace(s) != "" && '/' !in TrimSpace(s) && m.denote(Host(TrimSpace(s))) == Some(p) ==>
           p in n.kernel.table
    decreases |ips|
  {
    hide TrimSpace, DnsOne;
    if ips != [] {
      DnsOnePlaces(m, ips[0], bypass);
      DnsPlaces(DnsOne(m, ips[0], bypass), ips[1..], bypass);
      assert ips == [ips[0]] + ips[1..];
    }
  }

  // Every DNS server has a host route: to the old gateway if it is to be bypassed, through
  // the tunnel otherwise.
  lemma ServersArePlaced(m: State, servers: seq<string>, bypass: bool)
    requires AddsWork(m.kernel) && (bypass ==> m.gw != "")
    ensures var t, u := m.kernel.table, AddDNSServerRoutes(m, servers, bypass).kernel.table;
      forall s, p :: s in servers && TrimSpace(s) != "" && '/' !in TrimSpace(s) && m.denote(Host(TrimSpace(s))) == Some(p) ==>
        Placed(t, u, p, if bypass then Gateway(m.gw) else Device(m.tun))
  {
    DnsPlaces(m, servers, bypass);
  }

  // An exclude leaves by the old gateway; it is rejected only without a gateway or when the
  // first add failed.
  lemma ExcludeIsPlaced(m: State, dest: string, p: Prefix)
    requires TrimSpace(dest) != ""
    requires var d := TrimSpace(dest); m.denote(if '/' in d then Net(d) else Host(d)) == Some(p)
    ensures var t, c, f, u := m.kernel.table, m.kernel.clock, m.kernel.faults.add, AddExclude(m, dest).kernel.table;
      && (m.gw != "" && !f(c) ==> Placed(t, u, p, Gateway(m.gw)))
      && (m.gw != "" && f(c) && !f(c + 1) ==> Placed(t, u, p, Reject))
      && (m.gw == "" && !f(c) ==> Placed(t, u, p, Reject))
  {
    hide TrimSpace;
  }

  // An extra route leaves by the tunnel device, or by the peer when that failed.
  lemma ExtraRouteIsPlaced(m: State, dest: string, p: Prefix)
    requires TrimSpace(dest) != ""
    requires var d := TrimSpace(dest); m.denote(if '/' in d then Net(d) else Host(d)) == Some(p)
    ensures var t, c, f, u := m.kernel.table, m.kernel.clock, m.kernel.faults.add, AddExtraRoute(m, dest).kernel.table;
      && (!f(c) ==> Placed(t, u, p, Device(m.tun)))
      && (f(c) && m.peer != "" && !f(c + 1) ==> Placed(t, u, p, Via(m.peer, m.tun)))
  {
    hide TrimSpace;
  }

  lemma TryVariantHop(m: State, entry: SplitRoute, hop: NextHop, half: Prefix)
    requires m.denote(SplitDest(entry)) == Some(half)
    ensures var v := TryVariant(m, entry, hop);
      && (v.1 ==> v.0.kernel.table == m.kernel.table[half := hop] && v.0.splits == m.splits + [entry])
      && (!m.kernel.faults.add(m.kernel.clock) && !m.kernel.faults.add(m.kernel.clock + 1) ==> v.1)
  {
  }

  // A half goes to the tunnel device, in the netmask form if the first command works, and
  // to the peer only after both forms with the device met a failing command.
  lemma VariantIsPlaced(m: State, dest: string)
    requires HalfText(dest)
    ensures var v, t, f := AddVariant(m, dest, "128.0.0.0"), m.kernel.table, m.kernel.faults.add;
      var u, c, half := v.0.kernel.table, m.kernel.clock, Half(dest);
      && (v.1 ==>
            || u == t[half := Device(m.tun)]
            || (m.peer != "" && u == t[half := Via(m.peer, m.tun)] && Failures(f, c, v.0.kernel.clock) >= 2))
      && (!f(c) && !f(c + 1) ==>
            v.1 && u == t[half := Device(m.tun)] && v.0.splits == m.splits + [SplitRoute(dest, "128.0.0.0", false)])
  {
    VariantForms(m.denote, dest);
    var masked, cidr := SplitRoute(dest, "128.0.0.0", false), SplitRoute(dest + "/1", "", true);
    var half, f := Half(dest), m.kernel.faults.add;
    TryVariantHop(m, masked, Device(m.tun), half);
    TryVariantOutcome(m, masked, Device(m.tun), half);
    var v1 := TryVariant(m, masked, Device(m.tun));
    if !v1.1 {
      TryVariantHop(v1.0, cidr, Device(m.tun), half);
      TryVariantOutcome(v1.0, cidr, Device(m.tun), half);
      var v2 := TryVariant(v1.0, cidr, Device(m.tun));
      FailuresAdd(f, m.kernel.clock, v1.0.kernel.clock, v2.0.kernel.clock);
      if !v2.1 && m.peer != "" {
        TryVariantHop(v2.0, masked, Via(m.peer, m.tun), half);
        TryVariantOutcome(v2.0, masked, Via(m.peer, m.tun), half);
        var v3 := TryVariant(v2.0, masked, Via(m.peer, m.tun));
        FailuresAdd(f, m.kernel.clock, v2.0.kernel.clock, v3.0.kernel.clock);
        if !v3.1 {
          TryVariantHop(v3.0, cidr, Via(m.peer, m.tun), half);
          TryVariantOutcome(v3.0, cidr, Via(m.peer, m.tun), half);
          var v4 := TryVariant(v3.0, cidr, Via(m.peer, m.tun));
          FailuresAdd(f, m.kernel.clock, v3.0.kernel.clock, v4.0.kernel.clock);
        }
      }
    }
  }

  // The kill switch takes hold exactly when the blackhole's add works and the default
  // route is out of its way: it was not there, or a gateway was known and the delete worked.
  lemma KillSwitchTakesHoldIff(start: State)
    requires !start.killSwitchAdded
    ensures var t, c, f := start.kernel.table, start.kernel.clock, start.kernel.faults;
      var n, add := AddKillSwitchRoute(start), if start.gw != "" then c + 1 else c;
      && n.killSwitch
      && (n.killSwitchAdded <==> !f.add(add) && (DEFAULT in t ==> start.gw != "" && !f.del(c)))
      && (n.killSwitchAdded ==> DEFAULT in n.kernel.table && n.kernel.table[DEFAULT] == Blackhole)
  {
  }

  // A drop whose deletes work takes the DNS bypasses out of table and ledger, and nothing else.
  lemma DropDrops(m: State)
    requires DropWorks(m)
    ensures var n := RemoveDNSBypass(m);
      && n.dnsBypass == []
      && forall p :: p in n.kernel.table <==> p in m.kernel.table && forall s :: s in m.dnsBypass ==> m.denote(Host(s)) != Some(p)
  {
    var dns := Hosts(m.denote, m.dnsBypass);
    DeleteAllEffect(m.kernel, dns);
    forall p ensures Some(p) in dns <==> exists s :: s in m.dnsBypass && m.denote(Host(s)) == Some(p) {
      if s :| s in m.dnsBypass && m.denote(Host(s)) == Some(p) {
        var i :| 0 <= i < |m.dnsBypass| && m.dnsBypass[i] == s;
        assert dns[i] == Some(p);
      }
    }
  }

  // ---------- The installed session ----------

  // What the options have the manager do.
  lemma InPlan(cfg: Config, gw: string, op: Op)
    ensures op in Plan(cfg, gw) <==>
      || (cfg.defaultRoute &&
           (|| op == BypassEndpoint(cfg.api.host, cfg.api.ips) || op == BypassEndpoint(cfg.connect.host, cfg.connect.ips)
            || op == SplitDefault || (op.Exclude? && op.dest in cfg.excludes)))
      || (op.ExtraRoute? && op.dest in cfg.extras)
      || (cfg.dnsGiven && op == DnsRoutes(cfg.dns, cfg.defaultRoute && cfg.keepDns))
      || (!cfg.dnsGiven && cfg.defaultRoute && gw != "" && cfg.keepDns && cfg.resolvers.Some?
          && op == DnsRoutes(cfg.resolvers.value, true))
  {
    assert op in Excludes(cfg.excludes) <==> op.Exclude? && op.dest in cfg.excludes by {
      if op.Exclude? && op.dest in cfg.excludes {
        var i :| 0 <= i < |cfg.excludes| && cfg.excludes[i] == op.dest;
        assert Excludes(cfg.excludes)[i] == op;
      }
    }
    assert op in Extras(cfg.extras) <==> op.ExtraRoute? && op.dest in cfg.extras by {
      if op.ExtraRoute? && op.dest in cfg.extras {
        var i :| 0 <= i < |cfg.extras| && cfg.extras[i] == op.dest;
        assert Extras(cfg.extras)[i] == op;
      }
    }
  }

  // A kill switch is installed only for a default route, and first.
  lemma KillSwitchIffAsked(start: State, cfg: Config)
    requires Fresh(start)
    ensures var m := Installed(start, cfg);
      && (m.killSwitch <==> cfg.defaultRoute && cfg.killSwitch)
      && (m.killSwitchAdded <==> cfg.defaultRoute && cfg.killSwitch && AddKillSwitchRoute(start).killSwitchAdded)
  {
    PlanHasNoKillSwitch(cfg, start.gw);
    var kill := cfg.defaultRoute && cfg.killSwitch;
    var first := First(start, kill);
    StartLedgered(start, kill);
    assert first.killSwitch == kill;
    hide Plan, Ledgered, ViewOf;
    RunKeeps(first, start.kernel.table, {}, Plan(cfg, start.gw));
  }

  // The entry stays, and so does its record among the control bypasses.
  ghost predicate StaysAt(m: State, n: State, p: Prefix) {
    && n.denote == m.denote && n.gw == m.gw
    && (p in m.kernel.table ==> p in n.kernel.table && n.kernel.table[p] == m.kernel.table[p])
    && HostSet(m.denote, m.ctrlBypass) <= HostSet(n.denote, n.ctrlBypass)
  }

  lemma {:induction false} DnsExtends(m: State, ips: seq<string>, bypass: bool)
    ensures Extends(m.kernel.table, AddDNSServerRoutes(m, ips, bypass).kernel.table)
    decreases |ips|
  {
    hide TrimSpace;
    if ips != [] {
      DnsExtends(DnsOne(m, ips[0], bypass), ips[1..], bypass);
    }
  }

  lemma SplitStaysAt(m: State, p: Prefix)
    requires p != LOWER_HALF && p != UPPER_HALF
    ensures StaysAt(m, AddSplitDefault(m), p)
  {
    hide AddVariant, HostSet;
    AddVariantOutcome(m, "0.0.0.0");
    AddVariantOutcome(AddVariant(m, "0.0.0.0", "128.0.0.0").0, "128.0.0.0");
  }

  lemma ExcludeStaysAt(m: State, dest: string, p: Prefix)
    ensures StaysAt(m, AddExclude(m, dest), p)
  {
    hide TrimSpace, Classify, RouteDest, HostSet;
  }

  lemma ExtraStaysAt(m: State, dest: string, p: Prefix)
    ensures StaysAt(m, AddExtraRoute(m, dest), p)
  {
    hide TrimSpace, Classify, RouteDest, HostSet;
  }

  lemma OneStaysAt(m: State, op: Op, p: Prefix)
    requires op.Exclude? || op.ExtraRoute? || op.DnsRoutes?
    ensures StaysAt(m, Apply(m, op), p)
  {
    hide AddExclude, AddExtraRoute, HostSet;
    match op
    case Exclude(dest) => ExcludeStaysAt(m, dest, p);
    case ExtraRoute(dest) => ExtraStaysAt(m, dest, p);
    case DnsRoutes(servers, bypass) =>
      DnsExtends(m, servers, bypass);
      DnsFrame(m, servers, bypass);
  }

  ghost predicate AddsOnly(ops: seq<Op>) { forall op :: op in ops ==> op.Exclude? || op.ExtraRoute? || op.DnsRoutes? }

  lemma {:induction false} RunStaysAt(m: State, ops: seq<Op>, p: Prefix)
    requires p.len == 32 && AddsOnly(ops)
    ensures StaysAt(m, Run(m, ops), p)
    decreases |ops|
  {
    if ops != [] {
      assert ops[0] in ops;
      hide Apply, HostSet;
      OneStaysAt(m, ops[0], p);
      RunStaysAt(Apply(m, ops[0]), ops[1..], p);
    }
  }

  lemma EndpointsPlaced(m: State, cfg: Config, e: Endpoint, ip: string, p: Prefix)
    requires AddsWork(m.kernel) && m.gw != "" && p !in m.kernel.table
    requires e in [cfg.api, cfg.connect] && e.host != "" && Some(ip) in e.ips && m.denote(Host(ip)) == Some(p)
    ensures var n := Run(m, Endpoints(cfg));
      && p in n.kernel.table && n.kernel.table[p] == Gateway(m.gw)
      && n.denote == m.denote && n.gw == m.gw && Some(p) in HostSet(m.denote, n.ctrlBypass)
  {
    hide HostSet, BypassAll, Run;
    RunEndpoints(m, cfg);
    var n := AddBypassEndpoint(m, cfg.api.host, cfg.api.ips);
    BypassAllPlaces(m, cfg.api.ips);
    BypassFrame(m, cfg.api.ips);
    BypassAllPlaces(n, cfg.connect.ips);
    BypassFrame(n, cfg.connect.ips);
  }

  lemma RestAddsOnly(cfg: Config, gw: string)
    ensures AddsOnly(Rest(cfg, gw))
    ensures cfg.defaultRoute ==> Plan(cfg, gw) == Endpoints(cfg) + [SplitDefault] + Rest(cfg, gw)
  {
    hide Endpoints;
  }

  lemma EndpointStays(first: State, cfg: Config, e: Endpoint, ip: string, p: Prefix)
    requires cfg.defaultRoute && AddsWork(first.kernel) && first.gw != "" && p !in first.kernel.table && p.len == 32
    requires e in [cfg.api, cfg.connect] && e.host != "" && Some(ip) in e.ips && first.denote(Host(ip)) == Some(p)
    ensures var m := Run(first, Plan(cfg, first.gw));
      p in m.kernel.table && m.kernel.table[p] == Gateway(first.gw) && Some(p) in HostSet(m.denote, m.ctrlBypass)
  {
    var s := Run(first, Endpoints(cfg));
    var split, rest := AddSplitDefault(s), Rest(cfg, first.gw);
    EndpointsPlaced(first, cfg, e, ip, p);
    SplitStaysAt(s, p);
    RestAddsOnly(cfg, first.gw);
    hide Plan, Rest, Endpoints, AddSplitDefault, Run, HostSet;
    RunEndpoints(first, cfg);
    RunConcat(first, Endpoints(cfg) + [SplitDefault], rest);
    RunStaysAt(split, rest, p);
  }

  // After the installation, and after the DNS bypasses are dropped, traffic to the
  // endpoints goes to the old gateway, and so keeps out of the tunnel that it carries.
  lemma EndpointsAreReached(start: State, cfg: Config, e: Endpoint, ip: string, a: Address)
    requires Fresh(start) && cfg.defaultRoute && AddsWork(start.kernel) && start.gw != ""
    requires e in [cfg.api, cfg.connect] && e.host != "" && Some(ip) in e.ips
    requires start.denote(Host(ip)) == Some(Prefix(a, 32)) && Prefix(a, 32) !in start.kernel.table
    ensures var m := Installed(start, cfg);
      && Lookup(m.kernel.table, a) == Some(Gateway(start.gw))
      && Lookup(RemoveDNSBypass(m).kernel.table, a) == Some(Gateway(start.gw))
  {
    var p, first := Prefix(a, 32), First(start, cfg.killSwitch);
    assert p !in first.kernel.table && first.kernel.faults == start.kernel.faults;
    EndpointStays(first, cfg, e, ip, p);
    PlanHasNoKillSwitch(cfg, start.gw);
    SessionLedgered(start, cfg.killSwitch, Plan(cfg, start.gw));
    var m, leaks := Installed(start, cfg), Leaks(first, Plan(cfg, start.gw));
    hide Plan, Run, Leaks, AddKillSwitchRoute;
    ControlSurvivesDrop(m, start.kernel.table, leaks, p);
    assert Covering(a, 32) == p;
  }

  lemma ControlSurvivesDrop(m: State, t0: Table, leaks: Dests, p: Prefix)
    requires Ledgered(ViewOf(m, leaks), t0) && Some(p) in HostSet(m.denote, m.ctrlBypass)
    ensures var t := RemoveDNSBypass(m).kernel.table; p in m.kernel.table ==> p in t && t[p] == m.kernel.table[p]
  {
    hide Ledgered;
    DropKeeps(m, t0, leaks);
    assert Some(p) in ViewOf(m, leaks).ctrl;
    DeleteAllEffect(m.kernel, Hosts(m.denote, m.dnsBypass));
  }
}
