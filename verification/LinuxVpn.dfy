/** The Linux cmdVpn: finding the old default route, installing the session's routes, and
    what the installed table does to every IPv4 address. */
module LinuxVpn {
  import opened Text
  import opened RouteTable
  import opened LinuxRoutes
  import opened LinuxGuarantees
  import opened LinuxManager

  // ---------- Reading `ip -o route show default` ----------

  datatype Route = Route(gw: string, dev: string, metric: int)

  const NO_ROUTE := Route("", "", -1)

  // What one printed line consists of. A word is any other token.
  datatype Field = ViaField(gw: string) | DevField(dev: string) | MetricField(text: string) | Word(w: string)

  predicate Keyword(w: string) { w == "via" || w == "dev" || w == "metric" }

  function PrintField(f: Field): seq<string> {
    match f
    case ViaField(gw) => ["via", gw]
    case DevField(dev) => ["dev", dev]
    case MetricField(text) => ["metric", text]
    case Word(w) => [w]
  }

  function Print(fields: seq<Field>): seq<string> {
    if fields == [] then [] else PrintField(fields[0]) + Print(fields[1..])
  }

  function SetField(r: Route, key: string, value: string, atoi: string -> Option<int>): Route {
    if key == "via" then r.(gw := value)
    else if key == "dev" then r.(dev := value)
    else if key == "metric" then
      match atoi(value)
      case Some(v) => r.(metric := v)
      case None => r
    else r
  }

  // What the fields of a line say: for each key the last value, for the metric the last
  // one that is a number.
  function Meaning(r: Route, fields: seq<Field>, atoi: string -> Option<int>): Route
    decreases |fields|
  {
    if fields == [] then r
    else
      Meaning(match fields[0]
              case ViaField(gw) => r.(gw := gw)
              case DevField(dev) => r.(dev := dev)
              case MetricField(text) => if atoi(text).Some? then r.(metric := atoi(text).value) else r
              case Word(_) => r,
              fields[1..], atoi)
  }

  function Scan(r: Route, toks: seq<string>, atoi: string -> Option<int>): Route
    decreases |toks|
  {
    if toks == [] then r
    else if Keyword(toks[0]) && |toks| > 1 then
      Scan(SetField(r, toks[0], toks[1], atoi), toks[2..], atoi)
    else Scan(r, toks[1..], atoi)
  }

  method ParseRoute(toks: seq<string>, atoi: string -> Option<int>) returns (r: Route)
    ensures r == Scan(NO_ROUTE, toks, atoi)
  {
    var gw, dev, met := "", "", -1;
    var i := 0;
    while i < |toks|
      invariant 0 <= i <= |toks|
      invariant Scan(Route(gw, dev, met), toks[i..], atoi) == Scan(NO_ROUTE, toks, atoi)
    {
      assert toks[i..][1..] == toks[i + 1..];
      if i + 1 < |toks| {
        assert toks[i..][2..] == toks[i + 2..];
      }
      if toks[i] == "via" {
        if i + 1 < |toks| {
          gw := toks[i + 1];
          i := i + 1;
        }
      } else if toks[i] == "dev" {
        if i + 1 < |toks| {
          dev := toks[i + 1];
          i := i + 1;
        }
      } else if toks[i] == "metric" {
        if i + 1 < |toks| {
          var v := atoi(toks[i + 1]);
          if v.Some? {
            met := v.value;
          }
          i := i + 1;
        }
      }
      i := i + 1;
    }
    return Route(gw, dev, met);
  }

  // A printed line reads back as what its fields say, even if a gateway, device or
  // metric is itself spelled like a keyword, and even if it ends in a keyword without a
  // value.
  lemma {:induction false} ScanPrint(r: Route, fields: seq<Field>, tail: seq<string>, atoi: string -> Option<int>)
    requires forall f :: f in fields && f.Word? ==> !Keyword(f.w)
    requires |tail| <= 1
    ensures Scan(r, Print(fields) + tail, atoi) == Meaning(r, fields, atoi)
    decreases |fields|
  {
    if fields == [] {
      assert Print(fields) + tail == tail;
      assert tail != [] ==> tail[1..] == [];
    } else {
      var toks, f, rest := Print(fields) + tail, fields[0], Print(fields[1..]) + tail;
      hide Print;
      PrintFirst(fields, tail);
      if f.Word? {
        ScanPrint(r, fields[1..], tail, atoi);
      } else {
        ScanPrint(SetField(r, toks[0], toks[1], atoi), fields[1..], tail, atoi);
      }
    }
  }

  lemma PrintFirst(fields: seq<Field>, tail: seq<string>)
    requires fields != []
    ensures var toks, w := Print(fields) + tail, PrintField(fields[0]);
      && |toks| >= |w| && toks[|w|..] == Print(fields[1..]) + tail
      && forall i :: 0 <= i < |w| ==> toks[i] == w[i]
  {
    hide PrintField;
    assert Print(fields) + tail == PrintField(fields[0]) + (Print(fields[1..]) + tail);
  }

  function ListOne(toks: seq<string>, atoi: string -> Option<int>): seq<Route> {
    var r := Scan(NO_ROUTE, toks, atoi);
    if r.dev == "" then [] else [r]
  }

  function Listed(lines: seq<seq<string>>, atoi: string -> Option<int>): seq<Route> {
    if lines == [] then [] else ListOne(lines[0], atoi) + Listed(lines[1..], atoi)
  }

  lemma {:induction false} ListedConcat(a: seq<seq<string>>, b: seq<seq<string>>, atoi: string -> Option<int>)
    ensures Listed(a + b, atoi) == Listed(a, atoi) + Listed(b, atoi)
  {
    hide ListOne;
    if a == [] {
      assert a + b == b;
    } else {
      ListedConcat(a[1..], b, atoi);
      assert (a + b)[0] == a[0] && (a + b)[1..] == a[1..] + b;
      Associative(ListOne(a[0], atoi), Listed(a[1..], atoi), Listed(b, atoi));
    }
  }

  // Every line with a device is listed, in its place, and no other line is.
  lemma {:induction false} ListedAll(lines: seq<seq<string>>, atoi: string -> Option<int>)
    requires forall l :: l in lines ==> Scan(NO_ROUTE, l, atoi).dev != ""
    ensures |Listed(lines, atoi)| == |lines|
    ensures forall i :: 0 <= i < |lines| ==> Listed(lines, atoi)[i] == Scan(NO_ROUTE, lines[i], atoi)
  {
    if lines != [] {
      hide Scan;
      ListedAll(lines[1..], atoi);
      assert lines[0] in lines;
    }
  }

  lemma ListedSkips(a: seq<seq<string>>, l: seq<string>, b: seq<seq<string>>, atoi: string -> Option<int>)
    requires Scan(NO_ROUTE, l, atoi).dev == ""
    ensures Listed(a + [l] + b, atoi) == Listed(a + b, atoi)
  {
    assert [l][1..] == [] && Listed([l], atoi) == ListOne(l, atoi) + [] == [];
    hide Listed, Scan, ListOne;
    ListedConcat(a + [l], b, atoi);
    ListedConcat(a, [l], atoi);
    ListedConcat(a, b, atoi);
  }

  lemma Associative(x: seq<Route>, y: seq<Route>, z: seq<Route>)
    ensures x + (y + z) == x + y + z
  {
  }

  // The lines are given as their token lists; lines without a device are skipped.
  method ListDefaultRoutes(lines: seq<seq<string>>, atoi: string -> Option<int>) returns (routes: seq<Route>)
    ensures routes == Listed(lines, atoi)
    ensures forall r :: r in routes ==> r.dev != ""
  {
    routes := [];
    for i := 0 to |lines|
      invariant routes == Listed(lines[..i], atoi)
      invariant forall r :: r in routes ==> r.dev != ""
    {
      var r := ParseRoute(lines[i], atoi);
      assert lines[..i + 1] == lines[..i] + [lines[i]];
      ListedConcat(lines[..i], [lines[i]], atoi);
      assert Listed([lines[i]][1..], atoi) == [];
      if r.dev == "" {
        continue;
      }
      routes := routes + [r];
    }
    assert lines[..|lines|] == lines;
  }

  predicate Outside(r: Route, tunName: string) { r.dev != tunName }

  predicate Usable(r: Route, tunName: string) { r.dev != tunName && r.gw != "" }

  // The first default route outside the tunnel that has a gateway; if there is none, the
  // first outside the tunnel; if there is none, nothing.
  method ChooseGateway(routes: seq<Route>, tunName: string) returns (origGw: string, origDev: string)
    requires forall r :: r in routes ==> r.dev != ""
    ensures
      || (exists i: nat | i < |routes| ::
            && origGw == routes[i].gw && origDev == routes[i].dev && Usable(routes[i], tunName)
            && forall j | 0 <= j < i :: !Usable(routes[j], tunName))
      || (&& (forall j | 0 <= j < |routes| :: !Usable(routes[j], tunName))
          && exists i: nat | i < |routes| ::
               && origGw == "" && origDev == routes[i].dev && Outside(routes[i], tunName)
               && forall j | 0 <= j < i :: !Outside(routes[j], tunName))
      || (origGw == "" && origDev == "" && forall j | 0 <= j < |routes| :: !Outside(routes[j], tunName))
    ensures origDev != "" ==> origDev != tunName
  {
    origGw, origDev := "", "";
    ghost var at: nat := 0;
    for i := 0 to |routes|
      invariant origDev == "" ==> origGw == "" && forall j | 0 <= j < i :: !Outside(routes[j], tunName)
      invariant origDev != "" ==>
        at < i && Outside(routes[at], tunName) && origGw == routes[at].gw && origDev == routes[at].dev
      invariant origDev != "" && origGw == "" ==>
        && (forall j | 0 <= j < i :: !Usable(routes[j], tunName))
        && forall j | 0 <= j < at :: !Outside(routes[j], tunName)
      invariant origGw != "" ==> forall j | 0 <= j < at :: !Usable(routes[j], tunName)
    {
      var r := routes[i];
      if r.dev == tunName {
        continue;
      }
      if origDev == "" || (origGw == "" && r.gw != "") {
        origGw, origDev := r.gw, r.dev;
        at := i;
      }
    }
  }

  // ---------- Installing the routes ----------

  // The route-relevant options, with the comma-separated lists already split.
  datatype Config = Config(
    defaultRoute: bool, killSwitch: bool, api: Endpoint, connect: Endpoint,
    excludes: seq<string>, extras: seq<string>, dns: seq<string>)

  function Excludes(l: seq<string>): seq<Op> { seq(|l|, i requires 0 <= i < |l| => Exclude(l[i])) }

  function Extras(l: seq<string>): seq<Op> { seq(|l|, i requires 0 <= i < |l| => ExtraRoute(l[i])) }

  function Endpoints(cfg: Config): seq<Op> {
    [BypassEndpoint(cfg.api.host, cfg.api.ips), BypassEndpoint(cfg.connect.host, cfg.connect.ips)]
  }

  function Plan(cfg: Config): seq<Op> {
    (if cfg.defaultRoute then Endpoints(cfg) + [SplitDefault] + Excludes(cfg.excludes) else [])
    + Extras(cfg.extras)
    + (if !cfg.defaultRoute && cfg.dns != [] then [DnsRoutes(cfg.dns, false)] else [])
  }

  function Installed(start: State, cfg: Config): State {
    Session(start, cfg.defaultRoute && cfg.killSwitch, Plan(cfg))
  }

  lemma {:induction false} RunConcat(m: State, a: seq<Op>, b: seq<Op>)
    ensures Run(m, a + b) == Run(Run(m, a), b)
    decreases |a|
  {
    hide Apply;
    if a == [] {
      assert a + b == b;
    } else {
      RunConcat(Apply(m, a[0]), a[1..], b);
      assert (a + b)[1..] == a[1..] + b;
    }
  }

  lemma RunOne(m: State, ops: seq<Op>, op: Op)
    ensures Run(m, ops + [op]) == Apply(Run(m, ops), op)
  {
    RunConcat(m, ops, [op]);
    assert [op][1..] == [];
  }

  method AddExcludes(rm: LinuxRouteManager, l: seq<string>)
    modifies rm
    ensures rm.State() == Run(old(rm.State()), Excludes(l))
  {
    for i := 0 to |l|
      invariant Run(rm.State(), Excludes(l)[i..]) == Run(old(rm.State()), Excludes(l))
    {
      assert Excludes(l)[i..][1..] == Excludes(l)[i + 1..];
      rm.AddExclude(l[i]);
    }
  }

  method AddExtras(rm: LinuxRouteManager, l: seq<string>)
    modifies rm
    ensures rm.State() == Run(old(rm.State()), Extras(l))
  {
    for i := 0 to |l|
      invariant Run(rm.State(), Extras(l)[i..]) == Run(old(rm.State()), Extras(l))
    {
      assert Extras(l)[i..][1..] == Extras(l)[i + 1..];
      rm.AddExtraRoute(l[i]);
    }
  }

  lemma RunFullTunnel(m: State, cfg: Config)
    ensures Run(m, Endpoints(cfg) + [SplitDefault] + Excludes(cfg.excludes))
         == Run(AddSplitDefault(Run(m, Endpoints(cfg))), Excludes(cfg.excludes))
    ensures Run(m, Endpoints(cfg))
         == AddBypassEndpoint(AddBypassEndpoint(m, cfg.api.host, cfg.api.ips),
                              cfg.connect.host, cfg.connect.ips)
  {
    RunConcat(m, Endpoints(cfg) + [SplitDefault], Excludes(cfg.excludes));
    RunOne(m, Endpoints(cfg), SplitDefault);
    var x, y := Endpoints(cfg)[0], Endpoints(cfg)[1];
    assert Endpoints(cfg) == [x] + [y] && [x] == [] + [x];
    RunOne(m, [], x);
    RunOne(m, [x], y);
  }

  method InstallRoutes(rm: LinuxRouteManager, cfg: Config)
    modifies rm
    ensures rm.State() == Installed(old(rm.State()), cfg)
  {
    if cfg.defaultRoute && cfg.killSwitch {
      rm.AddKillSwitchRoute();
    }
    ghost var m, first, dns := rm.State(), [], [];
    if cfg.defaultRoute {
      RunFullTunnel(m, cfg);
      rm.AddBypassEndpoint(cfg.api.host, cfg.api.ips);
      rm.AddBypassEndpoint(cfg.connect.host, cfg.connect.ips);
      rm.AddSplitDefault();
      AddExcludes(rm, cfg.excludes);
      first := Endpoints(cfg) + [SplitDefault] + Excludes(cfg.excludes);
    }
    RunConcat(m, first, Extras(cfg.extras));
    AddExtras(rm, cfg.extras);
    if !cfg.defaultRoute && cfg.dns != [] {
      rm.AddDNSServerRoutes(cfg.dns, false);
      dns := [DnsRoutes(cfg.dns, false)];
      assert dns[1..] == [];
    }
    RunConcat(m, first + Extras(cfg.extras), dns);
  }

  lemma PlanHasNoKillSwitch(cfg: Config)
    ensures NoKillSwitch(Plan(cfg))
  {
  }

  // ---------- The full tunnel ----------

  // The next hop of a split route once it is requested: the one its prefix had before, if
  // it had one, for then the add fails unnoticed.
  function HalfHop(t0: Table, tun: string, half: Prefix): NextHop {
    if half in t0 then t0[half] else Device(tun)
  }

  ghost predicate HalvesTaken(t: Table, t0: Table, tun: string) {
    && LOWER_HALF in t && t[LOWER_HALF] == HalfHop(t0, tun, LOWER_HALF)
    && UPPER_HALF in t && t[UPPER_HALF] == HalfHop(t0, tun, UPPER_HALF)
  }

  ghost predicate HalvesAsIn(t: Table, t0: Table) {
    && (LOWER_HALF in t <==> LOWER_HALF in t0) && (LOWER_HALF in t ==> t[LOWER_HALF] == t0[LOWER_HALF])
    && (UPPER_HALF in t <==> UPPER_HALF in t0) && (UPPER_HALF in t ==> t[UPPER_HALF] == t0[UPPER_HALF])
  }

  // Endpoint addresses get host routes.
  ghost predicate HostRoutes(denote: Syntax, ips: seq<Option<string>>) {
    forall ip, p :: Some(ip) in ips && denote(ip) == Some(p) ==> p.len == 32
  }

  lemma {:induction false} BypassLeavesHalves(m: State, ips: seq<Option<string>>)
    requires HostRoutes(m.denote, ips)
    ensures HalvesAsIn(BypassAll(m, ips).kernel.table, m.kernel.table)
    ensures BypassAll(m, ips).denote == m.denote && BypassAll(m, ips).tun == m.tun
    decreases |ips|
  {
    if ips != [] {
      assert ips[0] in ips;
      BypassLeavesHalves(if ips[0].Some? then BypassOne(m, ips[0].value) else m, ips[1..]);
    }
  }

  // Adds never take an entry's next hop away.
  ghost predicate Extends(t: Table, u: Table) { forall p :: p in t ==> p in u && u[p] == t[p] }

  lemma {:induction false} BypassExtends(m: State, ips: seq<Option<string>>)
    ensures Extends(m.kernel.table, BypassAll(m, ips).kernel.table)
    decreases |ips|
  {
    if ips != [] {
      BypassExtends(if ips[0].Some? then BypassOne(m, ips[0].value) else m, ips[1..]);
    }
  }

  lemma {:induction false} DnsExtends(m: State, ips: seq<string>, bypass: bool)
    ensures Extends(m.kernel.table, AddDNSServerRoutes(m, ips, bypass).kernel.table)
    decreases |ips|
  {
    if ips != [] {
      DnsExtends(DnsOne(m, ips[0], bypass), ips[1..], bypass);
    }
  }

  lemma ApplyExtends(m: State, op: Op)
    requires !op.KillSwitch?
    ensures Extends(m.kernel.table, Apply(m, op).kernel.table)
  {
    match op
    case BypassEndpoint(host, ips) => BypassExtends(m, ips);
    case DnsRoutes(servers, bypass) => DnsExtends(m, servers, bypass);
    case _ =>
  }

  lemma {:induction false} RunExtends(m: State, ops: seq<Op>)
    requires NoKillSwitch(ops)
    ensures Extends(m.kernel.table, Run(m, ops).kernel.table)
    decreases |ops|
  {
    if ops != [] {
      assert ops[0] in ops;
      hide Apply;
      ApplyExtends(m, ops[0]);
      RunExtends(Apply(m, ops[0]), ops[1..]);
    }
  }

  // How an address leaves: by its longest match p, which is never the default entry.
  ghost predicate Routed(start: State, cfg: Config, a: Address, p: Prefix) {
    var t, t0 := Installed(start, cfg).kernel.table, start.kernel.table;
    && BestMatch(t, a) == Some(p) && p in t && p.len >= 1
    && (p.len == 1 ==> t[p] == HalfHop(t0, start.tun, p))
    && (p.len > 1 ==>
          || t[p] == Device(start.tun)
          || (p in t0 && t[p] == t0[p])
          || (BypassAsked(start, Plan(cfg), Some(p)) && t[p] == BypassHop(start)))
  }

  // With the two split routes accepted or taken (any other command may fail), every
  // address of the full tunnel leaves through the tunnel, unless its longest match is
  // longer than /1 and either was there before or is a bypass or exclude that was asked
  // for, or is a /1 entry that was there before. The default entry is never used.
  lemma FullTunnel(start: State, cfg: Config, a: Address)
    requires Fresh(start) && cfg.defaultRoute
    requires HostRoutes(start.denote, cfg.api.ips) && HostRoutes(start.denote, cfg.connect.ips)
    requires var k := Session(start, cfg.killSwitch, Endpoints(cfg)).kernel;
      !k.faults.add(k.clock) && !k.faults.add(k.clock + 1)
    ensures exists p :: Routed(start, cfg, a, p)
  {
    var first := if cfg.killSwitch then AddKillSwitchRoute(start) else start;
    SplitTakesHalves(first, start.kernel.table, cfg);
    var s := AddSplitDefault(Run(first, Endpoints(cfg)));
    hide BypassAll, AddSplitDefault, AddBypassEndpoint, Endpoints, HostRoutes, HalvesAsIn, Accounted, HalfHop;
    PlanRest(first, cfg);
    PlanHasNoKillSwitch(cfg);
    RunExtends(s, Excludes(cfg.excludes) + Extras(cfg.extras));
    var m := Installed(start, cfg);
    assert HalvesTaken(m.kernel.table, start.kernel.table, start.tun);
    var p := LongestIsExplained(start, cfg, a);
  }

  lemma SplitTakesHalves(m: State, t0: Table, cfg: Config)
    requires HalvesAsIn(m.kernel.table, t0)
    requires HostRoutes(m.denote, cfg.api.ips) && HostRoutes(m.denote, cfg.connect.ips)
    requires var k := Run(m, Endpoints(cfg)).kernel; !k.faults.add(k.clock) && !k.faults.add(k.clock + 1)
    ensures HalvesTaken(AddSplitDefault(Run(m, Endpoints(cfg))).kernel.table, t0, m.tun)
  {
    hide HostRoutes, Run, AddBypassEndpoint, AddSplitDefault, HalfHop;
    RunFullTunnel(m, cfg);
    EndpointLeavesHalves(m, cfg.api);
    EndpointLeavesHalves(AddBypassEndpoint(m, cfg.api.host, cfg.api.ips), cfg.connect);
    SplitsAreTaken(Run(m, Endpoints(cfg)), t0);
  }

  lemma EndpointLeavesHalves(m: State, e: Endpoint)
    requires HostRoutes(m.denote, e.ips)
    ensures var n := AddBypassEndpoint(m, e.host, e.ips);
      HalvesAsIn(n.kernel.table, m.kernel.table) && n.denote == m.denote && n.tun == m.tun
  {
    hide HostRoutes;
    BypassLeavesHalves(m, e.ips);
  }

  lemma SplitsAreTaken(m: State, t0: Table)
    requires HalvesAsIn(m.kernel.table, t0)
    requires !m.kernel.faults.add(m.kernel.clock) && !m.kernel.faults.add(m.kernel.clock + 1)
    ensures HalvesTaken(AddSplitDefault(m).kernel.table, t0, m.tun)
  {
  }

  lemma PlanRest(m: State, cfg: Config)
    requires cfg.defaultRoute
    ensures Run(m, Plan(cfg)) == Run(AddSplitDefault(Run(m, Endpoints(cfg))),
                                     Excludes(cfg.excludes) + Extras(cfg.extras))
  {
    var rest := Excludes(cfg.excludes) + Extras(cfg.extras);
    assert Plan(cfg) == (Endpoints(cfg) + [SplitDefault]) + rest;
    RunConcat(m, Endpoints(cfg) + [SplitDefault], rest);
    RunOne(m, Endpoints(cfg), SplitDefault);
  }

  lemma LongestIsExplained(start: State, cfg: Config, a: Address) returns (p: Prefix)
    requires Fresh(start) && cfg.defaultRoute
    requires HalvesTaken(Installed(start, cfg).kernel.table, start.kernel.table, start.tun)
    ensures Routed(start, cfg, a, p)
  {
    var m, t0 := Installed(start, cfg), start.kernel.table;
    var t := m.kernel.table;
    PlanHasNoKillSwitch(cfg);
    SessionAccounted(start, cfg.killSwitch, Plan(cfg));
    RecordedIsAsked(start, cfg.killSwitch, Plan(cfg));
    hide Installed, Session, Plan, BypassAsked, Bypassed, Tunnelled, HalfHop, Recorded;
    HalvesCoverEverything(a);
    BestMatchIsLongest(t, a);
    var half := if Matches(LOWER_HALF, a) then LOWER_HALF else UPPER_HALF;
    MatchIsFound(t, a, half);
    p := BestMatch(t, a).value;
    assert IsLongest(t, a, p);
    assert Explained(m, t0, p);
    if p.len == 1 {
      assert p == Covering(a, 1) == half;
    }
  }

  // ---------- The order of excludes and extra routes ----------

  datatype Request = Request(dest: Option<Prefix>, hop: NextHop)

  predicate DestsOnly(ops: seq<Op>) { forall op :: op in ops ==> op.Exclude? || op.ExtraRoute? }

  function Asks(m: State, op: Op): Request
    requires op.Exclude? || op.ExtraRoute?
  {
    var d := TrimSpace(op.dest);
    Request(if d == "" then None else m.denote(d), if op.Exclude? then BypassHop(m) else Device(m.tun))
  }

  function AllAsk(m: State, ops: seq<Op>): (r: seq<Request>)
    requires DestsOnly(ops)
    ensures |r| == |ops| && forall i :: 0 <= i < |ops| ==> r[i] == Asks(m, ops[i])
  {
    seq(|ops|, i requires 0 <= i < |ops| => Asks(m, ops[i]))
  }

  // A request is granted unless its prefix is taken.
  function Grant(t: Table, q: Request): Table {
    if q.dest.Some? && q.dest.value !in t then t[q.dest.value := q.hop] else t
  }

  function GrantAll(t: Table, reqs: seq<Request>): Table
    decreases |reqs|
  {
    if reqs == [] then t else GrantAll(Grant(t, reqs[0]), reqs[1..])
  }

  lemma ApplyGrants(m: State, op: Op)
    requires (op.Exclude? || op.ExtraRoute?) && !m.kernel.faults.add(m.kernel.clock)
    ensures Apply(m, op).kernel.table == Grant(m.kernel.table, Asks(m, op))
    ensures Apply(m, op).kernel.faults == m.kernel.faults
  {
  }

  lemma AllAskRest(m: State, ops: seq<Op>)
    requires ops != [] && DestsOnly(ops)
    ensures AllAsk(m, ops)[1..] == AllAsk(Apply(m, ops[0]), ops[1..])
  {
    var n, op := Apply(m, ops[0]), ops[0];
    assert op in ops;
    assert n.tun == m.tun && n.gw == m.gw && n.dev == m.dev && n.denote == m.denote;
    assert forall x: Op :: x.Exclude? || x.ExtraRoute? ==> Asks(n, x) == Asks(m, x);
  }

  lemma {:induction false} RunGrantsAll(m: State, ops: seq<Op>)
    requires DestsOnly(ops) && forall n :: !m.kernel.faults.add(n)
    ensures Run(m, ops).kernel.table == GrantAll(m.kernel.table, AllAsk(m, ops))
    decreases |ops|
  {
    if ops != [] {
      assert ops[0] in ops;
      ApplyGrants(m, ops[0]);
      RunGrantsAll(Apply(m, ops[0]), ops[1..]);
      AllAskRest(m, ops);
    }
  }

  ghost predicate Distinct(reqs: seq<Request>) {
    forall i, j :: 0 <= i < j < |reqs| && reqs[i].dest.Some? ==> reqs[i].dest != reqs[j].dest
  }

  lemma {:induction false} GrantAllExtends(t: Table, reqs: seq<Request>)
    ensures Extends(t, GrantAll(t, reqs))
    decreases |reqs|
  {
    if reqs != [] {
      GrantAllExtends(Grant(t, reqs[0]), reqs[1..]);
    }
  }

  lemma {:induction false} GrantAllGrants(t: Table, reqs: seq<Request>, i: nat)
    requires Distinct(reqs) && i < |reqs| && reqs[i].dest.Some?
    ensures var p, r := reqs[i].dest.value, GrantAll(t, reqs);
      p in r && r[p] == if p in t then t[p] else reqs[i].hop
    decreases |reqs|
  {
    var u := Grant(t, reqs[0]);
    if i == 0 {
      GrantAllExtends(u, reqs[1..]);
    } else {
      assert reqs[0].dest.Some? ==> reqs[0].dest != reqs[i].dest;
      GrantAllGrants(u, reqs[1..], i - 1);
    }
  }

  lemma {:induction false} GrantAllGrantsOnly(t: Table, reqs: seq<Request>, p: Prefix) returns (i: nat)
    requires p in GrantAll(t, reqs) && p !in t
    ensures i < |reqs| && reqs[i].dest == Some(p)
    decreases |reqs|
  {
    if p in Grant(t, reqs[0]) {
      i := 0;
    } else {
      i := GrantAllGrantsOnly(Grant(t, reqs[0]), reqs[1..], p);
      i := i + 1;
    }
  }

  lemma OneWay(t: Table, a: seq<Request>, b: seq<Request>, p: Prefix)
    requires Distinct(a) && Distinct(b) && forall q :: q in a ==> q in b
    requires p in GrantAll(t, a)
    ensures p in GrantAll(t, b) && GrantAll(t, b)[p] == GrantAll(t, a)[p]
  {
    if p in t {
      GrantAllExtends(t, a);
      GrantAllExtends(t, b);
    } else {
      var i := GrantAllGrantsOnly(t, a, p);
      assert a[i] in b;
      var j: nat :| j < |b| && b[j] == a[i];
      GrantAllGrants(t, a, i);
      GrantAllGrants(t, b, j);
    }
  }

  lemma OccursTwice<T>(a: seq<T>, i: nat, j: nat)
    requires i < j < |a| && a[i] == a[j]
    ensures multiset(a)[a[i]] >= 2
  {
    assert a == a[..j] + [a[j]] + a[j + 1..];
    assert a[..j][i] in multiset(a[..j]);
  }

  lemma FindTwo<T>(a: seq<T>, x: T) returns (i: nat, j: nat)
    requires multiset(a)[x] >= 2
    ensures i < j < |a| && a[i] == a[j] == x
  {
    assert x in multiset(a);
    i :| i < |a| && a[i] == x;
    var front, back := a[..i], a[i + 1..];
    assert a == front + [x] + back;
    assert x in multiset(front) || x in multiset(back);
    if x in front {
      j := i;
      i :| i < |front| && front[i] == x;
    } else {
      j :| j < |back| && back[j] == x;
      j := i + 1 + j;
    }
  }

  lemma DistinctAt(reqs: seq<Request>, i: nat, j: nat)
    requires Distinct(reqs) && i < |reqs| && j < |reqs| && i != j && reqs[i].dest.Some?
    ensures reqs[i].dest != reqs[j].dest
  {
  }

  lemma DistinctInAnyOrder(m: State, a: seq<Op>, b: seq<Op>)
    requires multiset(a) == multiset(b) && DestsOnly(a) && DestsOnly(b)
    requires Distinct(AllAsk(m, a))
    ensures Distinct(AllAsk(m, b))
  {
    forall i, j | 0 <= i < j < |b| && Asks(m, b[i]).dest.Some?
      ensures Asks(m, b[i]).dest != Asks(m, b[j]).dest
    {
      if b[i] == b[j] {
        OccursTwice(b, i, j);
        var k, l := FindTwo(a, b[i]);
        DistinctAt(AllAsk(m, a), k, l);
      } else {
        assert b[i] in multiset(a) && b[j] in multiset(a);
        var k: nat :| k < |a| && a[k] == b[i];
        var l: nat :| l < |a| && a[l] == b[j];
        DistinctAt(AllAsk(m, a), k, l);
      }
    }
  }

  // Excludes and extra routes with distinct prefixes may be given in any order.
  lemma OrderIsIrrelevant(m: State, a: seq<Op>, b: seq<Op>)
    requires multiset(a) == multiset(b) && DestsOnly(a) && DestsOnly(b)
    requires Distinct(AllAsk(m, a))
    requires forall n :: !m.kernel.faults.add(n)
    ensures Run(m, a).kernel.table == Run(m, b).kernel.table
  {
    DistinctInAnyOrder(m, a, b);
    hide Distinct, AllAsk, DestsOnly;
    RunGrantsAll(m, a);
    RunGrantsAll(m, b);
    SameRequests(m, a, b);
    SameRequests(m, b, a);
    SameGrants(m.kernel.table, AllAsk(m, a), AllAsk(m, b));
  }

  lemma SameGrants(t: Table, a: seq<Request>, b: seq<Request>)
    requires Distinct(a) && Distinct(b)
    requires (forall q :: q in a ==> q in b) && forall q :: q in b ==> q in a
    ensures GrantAll(t, a) == GrantAll(t, b)
  {
    var x, y := GrantAll(t, a), GrantAll(t, b);
    forall p | p in x ensures p in y && y[p] == x[p] {
      OneWay(t, a, b, p);
    }
    forall p | p in y ensures p in x {
      OneWay(t, b, a, p);
    }
  }

  lemma SameRequests(m: State, a: seq<Op>, b: seq<Op>)
    requires multiset(a) == multiset(b) && DestsOnly(a) && DestsOnly(b)
    ensures forall q :: q in AllAsk(m, a) ==> q in AllAsk(m, b)
  {
    forall q | q in AllAsk(m, a)
      ensures q in AllAsk(m, b)
    {
      var i :| 0 <= i < |a| && AllAsk(m, a)[i] == q;
      assert a[i] in multiset(b);
      var j :| 0 <= j < |b| && b[j] == a[i];
      assert AllAsk(m, b)[j] == q;
    }
  }
}
