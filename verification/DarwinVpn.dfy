/** The macOS cmdVpn: the order in which a session's routes are installed, the DNS
    bypasses that the cache goroutine drops later, and what the table then does to every
    IPv4 address. */
module DarwinVpn {
  import opened Text
  import opened RouteTable
  import opened DarwinRoutes
  import opened DarwinLedgers
  import opened DarwinRequests
  import opened DarwinGuarantees
  import opened DarwinManager

  // The route-relevant options, with the comma-separated lists already split. keepDns says
  // that the DNS bootstrap mode is "bypass" or "cache"; resolvers are the system's, None
  // when they cannot be read.
  datatype Config = Config(
    defaultRoute: bool, killSwitch: bool, api: Endpoint, connect: Endpoint,
    excludes: seq<string>, extras: seq<string>,
    dnsGiven: bool, dns: seq<string>, keepDns: bool, resolvers: Option<seq<string>>)

  function Excludes(l: seq<string>): seq<Op> { seq(|l|, i requires 0 <= i < |l| => Exclude(l[i])) }

  function Extras(l: seq<string>): seq<Op> { seq(|l|, i requires 0 <= i < |l| => ExtraRoute(l[i])) }

  function Endpoints(cfg: Config): seq<Op> {
    [BypassEndpoint(cfg.api.host, cfg.api.ips), BypassEndpoint(cfg.connect.host, cfg.connect.ips)]
  }

  function Dns(cfg: Config, gw: string): seq<Op> {
    if cfg.dnsGiven then
      [DnsRoutes(cfg.dns, cfg.defaultRoute && cfg.keepDns)]
      + (if cfg.defaultRoute then [] else [DnsRoutes(cfg.dns, false)])
    else if cfg.defaultRoute && gw != "" && cfg.keepDns && cfg.resolvers.Some? then
      [DnsRoutes(cfg.resolvers.value, true)]
    else []
  }

  // What follows the split default.
  function Rest(cfg: Config, gw: string): seq<Op> {
    (if cfg.defaultRoute then Excludes(cfg.excludes) else []) + Extras(cfg.extras) + Dns(cfg, gw)
  }

  function Plan(cfg: Config, gw: string): seq<Op> {
    (if cfg.defaultRoute then Endpoints(cfg) + [SplitDefault] else []) + Rest(cfg, gw)
  }

  function Installed(start: State, cfg: Config): State {
    Session(start, cfg.defaultRoute && cfg.killSwitch, Plan(cfg, start.gw))
  }

  // ---------- The installation ----------

  lemma {:induction false} RunConcat(m: State, a: seq<Op>, b: seq<Op>)
    ensures Run(m, a + b) == Run(Run(m, a), b)
    decreases |a|
  {
    hide Apply;
    if a == [] {
      assert a + b == b;
    } else {
      RunConcat(Apply(m, a[0]), a[1..], b);
      assert (a + b)[1..] == a[1..] + b;
    }
  }

  lemma RunOne(m: State, ops: seq<Op>, op: Op)
    ensures Run(m, ops + [op]) == Apply(Run(m, ops), op)
  {
    RunConcat(m, ops, [op]);
    assert [op][1..] == [];
  }

  method AddExcludes(rm: DarwinRouteManager, l: seq<string>)
    modifies rm
    ensures rm.State() == Run(old(rm.State()), Excludes(l))
  {
    hide AddExclude;
    for i := 0 to |l|
      invariant Run(rm.State(), Excludes(l)[i..]) == Run(old(rm.State()), Excludes(l))
    {
      assert Excludes(l)[i..][1..] == Excludes(l)[i + 1..];
      rm.AddExclude(l[i]);
    }
  }

  method AddExtras(rm: DarwinRouteManager, l: seq<string>)
    modifies rm
    ensures rm.State() == Run(old(rm.State()), Extras(l))
  {
    hide AddExtraRoute;
    for i := 0 to |l|
      invariant Run(rm.State(), Extras(l)[i..]) == Run(old(rm.State()), Extras(l))
    {
      assert Extras(l)[i..][1..] == Extras(l)[i + 1..];
      rm.AddExtraRoute(l[i]);
    }
  }

  method AddDns(rm: DarwinRouteManager, cfg: Config)
    modifies rm
    ensures rm.State() == Run(old(rm.State()), Dns(cfg, rm.defGw))
  {
    ghost var m := rm.State();
    if cfg.dnsGiven {
      var bypass := cfg.defaultRoute && cfg.keepDns;
      RunOne(m, [], DnsRoutes(cfg.dns, bypass));
      assert [] + [DnsRoutes(cfg.dns, bypass)] == [DnsRoutes(cfg.dns, bypass)];
      rm.AddDNSServerRoutes(cfg.dns, bypass);
    } else if cfg.defaultRoute && rm.defGw != "" && cfg.keepDns {
      if cfg.resolvers.Some? {
        RunOne(m, [], DnsRoutes(cfg.resolvers.value, true));
        assert [] + [DnsRoutes(cfg.resolvers.value, true)] == [DnsRoutes(cfg.resolvers.value, true)];
        rm.AddDNSServerRoutes(cfg.resolvers.value, true);
      }
    }
    if !cfg.defaultRoute && cfg.dnsGiven {
      RunOne(m, [DnsRoutes(cfg.dns, false)], DnsRoutes(cfg.dns, false));
      rm.AddDNSServerRoutes(cfg.dns, false);
    }
  }

  lemma RunEndpoints(m: State, cfg: Config)
    ensures Run(m, Endpoints(cfg))
         == AddBypassEndpoint(AddBypassEndpoint(m, cfg.api.host, cfg.api.ips), cfg.connect.host, cfg.connect.ips)
    ensures Run(m, Endpoints(cfg) + [SplitDefault]) == AddSplitDefault(Run(m, Endpoints(cfg)))
  {
    var x, y := Endpoints(cfg)[0], Endpoints(cfg)[1];
    assert Endpoints(cfg) == [x] + [y] && [x] == [] + [x];
    RunOne(m, [], x);
    RunOne(m, [x], y);
    RunOne(m, Endpoints(cfg), SplitDefault);
  }

  method InstallRoutes(rm: DarwinRouteManager, cfg: Config)
    modifies rm
    ensures rm.State() == Installed(old(rm.State()), cfg)
  {
    if cfg.defaultRoute && cfg.killSwitch {
      rm.AddKillSwitchRoute();
    }
    ghost var m, first, excludes := rm.State(), [], [];
    if cfg.defaultRoute {
      RunEndpoints(m, cfg);
      rm.AddBypassEndpoint(cfg.api.host, cfg.api.ips);
      rm.AddBypassEndpoint(cfg.connect.host, cfg.connect.ips);
      rm.AddSplitDefault();
      first, excludes := Endpoints(cfg) + [SplitDefault], Excludes(cfg.excludes);
      AddExcludes(rm, cfg.excludes);
    }
    AddExtras(rm, cfg.extras);
    AddDns(rm, cfg);
    RunConcat(Run(m, first), excludes, Extras(cfg.extras));
    RunConcat(Run(m, first), excludes + Extras(cfg.extras), Dns(cfg, rm.defGw));
    RunConcat(m, first, Rest(cfg, rm.defGw));
  }

  lemma PlanHasNoKillSwitch(cfg: Config, gw: string)
    ensures NoKillSwitch(Plan(cfg, gw)) && DropDnsBypass !in Plan(cfg, gw)
  {
  }

  // ---------- The full tunnel ----------

  ghost predicate HalvesTunnelled(m: State) {
    && LOWER_HALF in m.kernel.table && Through(m.kernel.table[LOWER_HALF], m.tun)
    && UPPER_HALF in m.kernel.table && Through(m.kernel.table[UPPER_HALF], m.tun)
  }

  // A single address is never written as a half of the address space.
  ghost predicate HostsAreHosts(denote: Syntax) {
    forall s, p :: denote(Host(s)) == Some(p) ==> p.len == 32
  }

  // Adds, and deletes of host routes.
  ghost predicate KeepsNets(m: State, n: State) {
    && n.tun == m.tun && n.denote == m.denote
    && forall p :: p in m.kernel.table && p.len < 32 ==> p in n.kernel.table && n.kernel.table[p] == m.kernel.table[p]
  }

  lemma {:induction false} DnsKeepsNets(m: State, ips: seq<string>, bypass: bool)
    ensures KeepsNets(m, AddDNSServerRoutes(m, ips, bypass))
    decreases |ips|
  {
    if ips != [] {
      DnsKeepsNets(DnsOne(m, ips[0], bypass), ips[1..], bypass);
    }
  }

  ghost predicate AddsOrDrops(ops: seq<Op>) {
    forall op :: op in ops ==> op.Exclude? || op.ExtraRoute? || op.DnsRoutes? || op.DropDnsBypass?
  }

  lemma ExcludeKeepsNets(m: State, dest: string)
    ensures KeepsNets(m, AddExclude(m, dest))
  {
    hide TrimSpace, Classify, RouteDest;
  }

  lemma ExtraKeepsNets(m: State, dest: string)
    ensures KeepsNets(m, AddExtraRoute(m, dest))
  {
    hide TrimSpace, Classify, RouteDest;
  }

  lemma DropKeepsNets(m: State)
    requires HostsAreHosts(m.denote)
    ensures KeepsNets(m, RemoveDNSBypass(m))
  {
    DeleteAllEffect(m.kernel, Hosts(m.denote, m.dnsBypass));
  }

  lemma OneKeepsNets(m: State, op: Op)
    requires HostsAreHosts(m.denote) && (op.Exclude? || op.ExtraRoute? || op.DnsRoutes? || op.DropDnsBypass?)
    ensures KeepsNets(m, Apply(m, op))
  {
    hide KeepsNets, AddExclude, AddExtraRoute, RemoveDNSBypass;
    match op
    case Exclude(dest) => ExcludeKeepsNets(m, dest);
    case ExtraRoute(dest) => ExtraKeepsNets(m, dest);
    case DnsRoutes(servers, bypass) => DnsKeepsNets(m, servers, bypass);
    case DropDnsBypass => DropKeepsNets(m);
  }

  lemma {:induction false} RunKeepsNets(m: State, ops: seq<Op>)
    requires HostsAreHosts(m.denote) && AddsOrDrops(ops)
    ensures KeepsNets(m, Run(m, ops))
    decreases |ops|
  {
    if ops != [] {
      assert ops[0] in ops;
      hide Apply;
      OneKeepsNets(m, ops[0]);
      RunKeepsNets(Apply(m, ops[0]), ops[1..]);
    }
  }

  // Whether addVariant reports success for both halves.
  predicate BothTaken(m: State) {
    var lower := AddVariant(m, "0.0.0.0", "128.0.0.0");
    lower.1 && AddVariant(lower.0, "128.0.0.0", "128.0.0.0").1
  }

  lemma SplitTunnelsHalves(m: State)
    requires BothTaken(m)
    ensures HalvesTunnelled(AddSplitDefault(m)) && AddSplitDefault(m).denote == m.denote
  {
    hide AddVariant;
    AddVariantOutcome(m, "0.0.0.0");
    AddVariantOutcome(AddVariant(m, "0.0.0.0", "128.0.0.0").0, "128.0.0.0");
  }

  // How the address leaves: through the tunnel, by a more specific entry of before, or by
  // a bypass or exclude that was asked for.
  ghost predicate Routed(start: State, ops: seq<Op>, t: Table, a: Address) {
    var t0 := start.kernel.table;
    exists p :: BestMatch(t, a) == Some(p) && p in t && p.len >= 1 &&
      (|| Through(t[p], start.tun)
       || (p.len > 1 && p in t0 && t[p] == t0[p])
       || (p.len > 1 && OwnedAsked(start, ops, Some(p)) && (t[p] == Gateway(start.gw) || t[p] == Reject)))
  }

  lemma LongestIsExplained(start: State, kill: bool, ops: seq<Op>, a: Address)
    requires Fresh(start) && NoKillSwitch(ops) && HalvesTunnelled(Session(start, kill, ops))
    ensures Routed(start, ops, Session(start, kill, ops).kernel.table, a)
  {
    var m, leaks := Session(start, kill, ops), Leaks(First(start, kill), ops);
    SessionLedgered(start, kill, ops);
    BypassIsAsked(start, kill, ops);
    SameView(m, leaks);
    hide Session, Leaks, OwnedAsked, Owns, Shares, Bypasses;
    var t := m.kernel.table;
    HalvesCoverEverything(a);
    BestMatchIsLongest(t, a);
    var half := if Matches(LOWER_HALF, a) then LOWER_HALF else UPPER_HALF;
    MatchIsFound(t, a, half);
    var p := BestMatch(t, a).value;
    assert IsLongest(t, a, p);
    assert Explained(ViewOf(m, leaks), start.kernel.table, p);
    if p.len == 1 {
      assert p == Covering(a, 1) == half;
    }
  }

  // If addVariant reports success for both halves, then whatever else fails and whatever
  // the table held before, also /1 entries, no address ever uses the default entry: it
  // leaves through the tunnel, or by an entry longer than /1 that was there before or is a
  // bypass or exclude that was asked for. This is so before and after the DNS bypasses are
  // dropped.
  lemma FullTunnel(start: State, cfg: Config, dropped: bool, a: Address)
    requires Fresh(start) && cfg.defaultRoute && HostsAreHosts(start.denote)
    requires BothTaken(Session(start, cfg.killSwitch, Endpoints(cfg)))
    ensures var m := Installed(start, cfg);
      var t := (if dropped then RemoveDNSBypass(m) else m).kernel.table;
      Routed(start, Plan(cfg, start.gw), t, a)
  {
    var plan := Plan(cfg, start.gw);
    var ops := plan + if dropped then [DropDnsBypass] else [];
    var first := First(start, cfg.killSwitch);
    StaysTunnelled(first, cfg, dropped);
    PlanHasNoKillSwitch(cfg, start.gw);
    assert NoKillSwitch(ops);
    DroppingAsksNothing(start, plan, dropped);
    hide Plan, Run, HalvesTunnelled, Routed, OwnedAsked;
    LongestIsExplained(start, cfg.killSwitch, ops, a);
    SameRouting(start, ops, plan, Run(first, ops).kernel.table, a);
  }

  lemma DroppingAsksNothing(start: State, plan: seq<Op>, dropped: bool)
    ensures var ops := plan + if dropped then [DropDnsBypass] else [];
      forall d :: OwnedAsked(start, ops, d) <==> OwnedAsked(start, plan, d)
  {
    var ops := plan + if dropped then [DropDnsBypass] else [];
    assert forall op :: op in ops <==> op in plan || (dropped && op == DropDnsBypass);
  }

  lemma SameRouting(start: State, ops: seq<Op>, plan: seq<Op>, t: Table, a: Address)
    requires Routed(start, ops, t, a) && forall d :: OwnedAsked(start, ops, d) <==> OwnedAsked(start, plan, d)
    ensures Routed(start, plan, t, a)
  {
    hide OwnedAsked;
  }

  lemma RestOfPlan(cfg: Config, gw: string, drop: seq<Op>)
    requires cfg.defaultRoute && (drop == [] || drop == [DropDnsBypass])
    ensures AddsOrDrops(Rest(cfg, gw) + drop)
    ensures Plan(cfg, gw) + drop == Endpoints(cfg) + [SplitDefault] + (Rest(cfg, gw) + drop)
  {
    hide Endpoints;
  }

  lemma StaysTunnelled(m: State, cfg: Config, dropped: bool)
    requires cfg.defaultRoute && HostsAreHosts(m.denote) && BothTaken(Run(m, Endpoints(cfg)))
    ensures var r := Run(m, Plan(cfg, m.gw));
      var ops := Plan(cfg, m.gw) + if dropped then [DropDnsBypass] else [];
      && Run(m, ops) == (if dropped then RemoveDNSBypass(r) else r)
      && HalvesTunnelled(Run(m, ops))
  {
    hide *;
    var drop := if dropped then [DropDnsBypass] else [];
    var plan, rest := Plan(cfg, m.gw), Rest(cfg, m.gw) + drop;
    var split := Endpoints(cfg) + [SplitDefault];
    RestOfPlan(cfg, m.gw, drop);
    EndpointsSetting(m, cfg);
    RunConcat(m, split, rest);
    RunEndpoints(m, cfg);
    SplitTunnelsHalves(Run(m, Endpoints(cfg)));
    RunKeepsNets(Run(m, split), rest);
    if dropped {
      DropLast(m, plan);
    } else {
      assert plan + drop == plan;
    }
    StillTunnelled(Run(m, split), Run(m, plan + drop));
  }

  lemma StillTunnelled(m: State, n: State)
    requires KeepsNets(m, n) && HalvesTunnelled(m)
    ensures HalvesTunnelled(n)
  {
  }

  lemma DropLast(m: State, ops: seq<Op>)
    ensures Run(m, ops + [DropDnsBypass]) == RemoveDNSBypass(Run(m, ops))
  {
    RunOne(m, ops, DropDnsBypass);
  }

  lemma EndpointsSetting(m: State, cfg: Config)
    ensures Run(m, Endpoints(cfg)).denote == m.denote
  {
    RunEndpoints(m, cfg);
    BypassFrame(m, cfg.api.ips);
    BypassFrame(AddBypassEndpoint(m, cfg.api.host, cfg.api.ips), cfg.connect.ips);
  }
}
