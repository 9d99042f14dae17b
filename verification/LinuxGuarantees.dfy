/** What a whole Linux session guarantees: what Cleanup restores, and what the kill
    switch leaves behind. */
module LinuxGuarantees {
  import opened Text
  import opened RouteTable
  import opened LinuxRoutes

  ghost predicate Fresh(m: State) {
    && m.bypass == [] && m.exclude == [] && m.extra == [] && m.dnsTun == []
    && !m.splits && !m.killSwitch && !m.killSwitchAdded
  }

  // A kill switch is installed first or not at all.
  ghost predicate NoKillSwitch(ops: seq<Op>) { forall op :: op in ops ==> !op.KillSwitch? }

  function Session(start: State, kill: bool, ops: seq<Op>): State {
    Run(if kill then AddKillSwitchRoute(start) else start, ops)
  }

  // Requested destinations outside and inside the tunnel.
  function Bypassed(m: State): seq<Option<Prefix>> {
    Dests(m.denote, m.bypass) + Dests(m.denote, m.exclude)
  }

  function Tunnelled(m: State): seq<Option<Prefix>> {
    Splits(m) + Dests(m.denote, m.extra) + Dests(m.denote, m.dnsTun)
  }

  lemma RecordedIsBoth(m: State)
    ensures forall d :: d in Recorded(m) <==> d in Bypassed(m) || d in Tunnelled(m)
  {
  }

  // ---------- The invariant of every session ----------

  // Where an entry of the table comes from: the table before the session, a recorded
  // request, or the kill switch.
  ghost predicate Explained(m: State, t0: Table, p: Prefix)
    requires p in m.kernel.table
  {
    var h := m.kernel.table[p];
    || (p in t0 && h == t0[p])
    || (Some(p) in Bypassed(m) && h == BypassHop(m))
    || (Some(p) in Tunnelled(m) && h == Device(m.tun))
    || (p == DEFAULT && m.killSwitchAdded && h == Blackhole)
    || (p == DEFAULT && m.killSwitch && h == Via(m.gw, m.dev) == BypassHop(m))
  }

  ghost predicate Accounted(m: State, t0: Table) {
    && (forall p :: p in m.kernel.table ==> Explained(m, t0, p))
    && (forall p :: p in t0 && !(m.killSwitch && p == DEFAULT) ==>
          p in m.kernel.table && m.kernel.table[p] == t0[p])
    && (m.killSwitchAdded ==>
          m.killSwitch && DEFAULT in m.kernel.table && m.kernel.table[DEFAULT] == Blackhole)
  }

  ghost predicate SameSetting(m: State, n: State) {
    && n.tun == m.tun && n.gw == m.gw && n.dev == m.dev && n.denote == m.denote
    && n.killSwitch == m.killSwitch && n.killSwitchAdded == m.killSwitchAdded
    && n.kernel.faults == m.kernel.faults
  }

  // One add whose destination is recorded on the matching side keeps the invariant.
  lemma AddKeepsAccounts(m: State, n: State, t0: Table, d: Option<Prefix>, hop: NextHop)
    requires Accounted(m, t0) && SameSetting(m, n) && n.kernel == Add(m.kernel, d, hop)
    requires forall x :: x in Bypassed(m) ==> x in Bypassed(n)
    requires forall x :: x in Tunnelled(m) ==> x in Tunnelled(n)
    requires (hop == BypassHop(m) && d in Bypassed(n)) || (hop == Device(m.tun) && d in Tunnelled(n))
    ensures Accounted(n, t0)
  {
    forall p | p in n.kernel.table ensures Explained(n, t0, p) {
      if p in m.kernel.table { assert Explained(m, t0, p); }
    }
  }

  lemma DestsGrow(denote: Syntax, l: seq<string>, s: string)
    ensures Dests(denote, l + [s]) == Dests(denote, l) + [denote(s)]
  {
  }

  lemma BypassOneKeeps(m: State, t0: Table, ip: string)
    requires Accounted(m, t0)
    ensures Accounted(BypassOne(m, ip), t0) && SameSetting(m, BypassOne(m, ip))
  {
    DestsGrow(m.denote, m.bypass, ip);
    AddKeepsAccounts(m, BypassOne(m, ip), t0, m.denote(ip), BypassHop(m));
  }

  lemma {:induction false} BypassAllKeeps(m: State, t0: Table, ips: seq<Option<string>>)
    requires Accounted(m, t0)
    ensures Accounted(BypassAll(m, ips), t0) && SameSetting(m, BypassAll(m, ips))
    decreases |ips|
  {
    if ips != [] {
      if ips[0].Some? {
        BypassOneKeeps(m, t0, ips[0].value);
        BypassAllKeeps(BypassOne(m, ips[0].value), t0, ips[1..]);
      } else {
        BypassAllKeeps(m, t0, ips[1..]);
      }
    }
  }

  lemma {:induction false} DnsKeeps(m: State, t0: Table, ips: seq<string>, bypass: bool)
    requires Accounted(m, t0)
    ensures Accounted(AddDNSServerRoutes(m, ips, bypass), t0)
    ensures SameSetting(m, AddDNSServerRoutes(m, ips, bypass))
    decreases |ips|
  {
    if ips != [] {
      var n, d := DnsOne(m, ips[0], bypass), TrimSpace(ips[0]);
      if n != m {
        if bypass {
          BypassOneKeeps(m, t0, d);
        } else {
          DestsGrow(m.denote, m.dnsTun, d);
          AddKeepsAccounts(m, n, t0, m.denote(d), Device(m.tun));
        }
      }
      DnsKeeps(n, t0, ips[1..], bypass);
    }
  }

  lemma SplitKeeps(m: State, t0: Table)
    requires Accounted(m, t0)
    ensures Accounted(AddSplitDefault(m), t0) && SameSetting(m, AddSplitDefault(m))
  {
    var a := m.(kernel := Add(m.kernel, Some(LOWER_HALF), Device(m.tun)), splits := true);
    AddKeepsAccounts(m, a, t0, Some(LOWER_HALF), Device(m.tun));
    AddKeepsAccounts(a, AddSplitDefault(m), t0, Some(UPPER_HALF), Device(m.tun));
  }

  lemma ApplyKeeps(m: State, t0: Table, op: Op)
    requires Accounted(m, t0) && !op.KillSwitch?
    ensures Accounted(Apply(m, op), t0) && SameSetting(m, Apply(m, op))
  {
    match op
    case BypassEndpoint(host, ips) => BypassAllKeeps(m, t0, ips);
    case SplitDefault => SplitKeeps(m, t0);
    case DnsRoutes(servers, bypass) => DnsKeeps(m, t0, servers, bypass);
    case Exclude(dest) =>
      var d := TrimSpace(dest);
      if d != "" {
        DestsGrow(m.denote, m.exclude, d);
        AddKeepsAccounts(m, AddExclude(m, dest), t0, m.denote(d), BypassHop(m));
      }
    case ExtraRoute(dest) =>
      var d := TrimSpace(dest);
      if d != "" {
        DestsGrow(m.denote, m.extra, d);
        AddKeepsAccounts(m, AddExtraRoute(m, dest), t0, m.denote(d), Device(m.tun));
      }
  }

  lemma {:induction false} RunKeeps(m: State, t0: Table, ops: seq<Op>)
    requires Accounted(m, t0) && NoKillSwitch(ops)
    ensures Accounted(Run(m, ops), t0) && SameSetting(m, Run(m, ops))
    decreases |ops|
  {
    if ops != [] {
      ApplyKeeps(m, t0, ops[0]);
      RunKeeps(Apply(m, ops[0]), t0, ops[1..]);
    }
  }

  // In every session, with any failing commands, each entry of the table is explained,
  // nothing that was there before is lost (but the default route, to a kill switch),
  // and an installed kill switch holds the default route as a blackhole.
  lemma SessionAccounted(start: State, kill: bool, ops: seq<Op>)
    requires Fresh(start) && NoKillSwitch(ops)
    ensures Accounted(Session(start, kill, ops), start.kernel.table)
    ensures !kill ==> SameSetting(start, Session(start, kill, ops))
  {
    if kill {
      var m := AddKillSwitchRoute(start);
      forall p | p in m.kernel.table ensures Explained(m, start.kernel.table, p) {}
      RunKeeps(m, start.kernel.table, ops);
    } else {
      forall p | p in start.kernel.table ensures Explained(start, start.kernel.table, p) {}
      RunKeeps(start, start.kernel.table, ops);
    }
  }

  // ---------- The ledgers hold what was asked for ----------

  // What the arguments of a call ask to be routed outside and inside the tunnel.
  ghost predicate AsksBypass(m: State, op: Op, d: Option<Prefix>) {
    match op
    case BypassEndpoint(host, ips) =>
      host != "" && m.dev != "" && exists ip :: Some(ip) in ips && m.denote(ip) == d
    case Exclude(dest) => TrimSpace(dest) != "" && m.denote(TrimSpace(dest)) == d
    case DnsRoutes(servers, bypass) => bypass && m.dev != "" && AsksServer(m, servers, d)
    case _ => false
  }

  ghost predicate AsksTunnel(m: State, op: Op, d: Option<Prefix>) {
    match op
    case SplitDefault => d == Some(LOWER_HALF) || d == Some(UPPER_HALF)
    case ExtraRoute(dest) => TrimSpace(dest) != "" && m.denote(TrimSpace(dest)) == d
    case DnsRoutes(servers, bypass) => !bypass && AsksServer(m, servers, d)
    case _ => false
  }

  ghost predicate AsksServer(m: State, servers: seq<string>, d: Option<Prefix>) {
    exists s :: s in servers && TrimSpace(s) != "" && m.denote(TrimSpace(s)) == d
  }

  ghost predicate BypassAsked(m: State, ops: seq<Op>, d: Option<Prefix>) {
    exists op :: op in ops && AsksBypass(m, op, d)
  }

  ghost predicate TunnelAsked(m: State, ops: seq<Op>, d: Option<Prefix>) {
    exists op :: op in ops && AsksTunnel(m, op, d)
  }

  ghost predicate Asked(m: State, ops: seq<Op>, d: Option<Prefix>) {
    BypassAsked(m, ops, d) || TunnelAsked(m, ops, d)
  }

  ghost predicate SameArguments(m: State, n: State) {
    n.tun == m.tun && n.gw == m.gw && n.dev == m.dev && n.denote == m.denote
  }

  lemma {:induction false} BypassAllRecords(m: State, ips: seq<Option<string>>)
    ensures var n := BypassAll(m, ips);
      && SameArguments(m, n) && Tunnelled(n) == Tunnelled(m)
      && forall d :: d in Bypassed(n) <==> d in Bypassed(m) || exists ip :: Some(ip) in ips && m.denote(ip) == d
    decreases |ips|
  {
    if ips != [] {
      if ips[0].Some? {
        DestsGrow(m.denote, m.bypass, ips[0].value);
        BypassAllRecords(BypassOne(m, ips[0].value), ips[1..]);
      } else {
        BypassAllRecords(m, ips[1..]);
      }
      assert ips == [ips[0]] + ips[1..];
    }
  }

  lemma DnsOneRecords(m: State, ip: string, bypass: bool)
    ensures var n, text := DnsOne(m, ip, bypass), TrimSpace(ip);
      && SameArguments(m, n)
      && (forall d :: d in Bypassed(n) <==>
            d in Bypassed(m) || (bypass && m.dev != "" && text != "" && m.denote(text) == d))
      && (forall d :: d in Tunnelled(n) <==> d in Tunnelled(m) || (!bypass && text != "" && m.denote(text) == d))
  {
    hide TrimSpace;
    DestsGrow(m.denote, m.bypass, TrimSpace(ip));
    DestsGrow(m.denote, m.dnsTun, TrimSpace(ip));
  }

  lemma {:induction false} DnsRecords(m: State, ips: seq<string>, bypass: bool)
    ensures var n := AddDNSServerRoutes(m, ips, bypass);
      && SameArguments(m, n)
      && (forall d :: d in Bypassed(n) <==> d in Bypassed(m) || (bypass && m.dev != "" && AsksServer(m, ips, d)))
      && (forall d :: d in Tunnelled(n) <==> d in Tunnelled(m) || (!bypass && AsksServer(m, ips, d)))
    decreases |ips|
  {
    hide TrimSpace, DnsOne, Bypassed, Tunnelled;
    if ips != [] {
      DnsOneRecords(m, ips[0], bypass);
      DnsRecords(DnsOne(m, ips[0], bypass), ips[1..], bypass);
      assert ips == [ips[0]] + ips[1..];
    }
  }

  // The ledgers of n are those of m plus what op asks for.
  ghost predicate Records(m: State, op: Op, n: State) {
    && SameArguments(m, n)
    && (forall d :: d in Bypassed(n) <==> d in Bypassed(m) || AsksBypass(m, op, d))
    && (forall d :: d in Tunnelled(n) <==> d in Tunnelled(m) || AsksTunnel(m, op, d))
  }

  lemma ExcludeRecords(m: State, dest: string)
    ensures Records(m, Exclude(dest), AddExclude(m, dest))
  {
    hide TrimSpace;
    DestsGrow(m.denote, m.exclude, TrimSpace(dest));
  }

  lemma ExtraRecords(m: State, dest: string)
    ensures Records(m, ExtraRoute(dest), AddExtraRoute(m, dest))
  {
    hide TrimSpace;
    DestsGrow(m.denote, m.extra, TrimSpace(dest));
  }

  lemma SplitRecords(m: State)
    ensures Records(m, SplitDefault, AddSplitDefault(m)) && Records(m, KillSwitch, AddKillSwitchRoute(m))
  {
  }

  lemma ApplyRecords(m: State, op: Op)
    ensures Records(m, op, Apply(m, op))
  {
    hide AddExclude, AddExtraRoute, AddSplitDefault, AddKillSwitchRoute;
    match op
    case BypassEndpoint(host, ips) => BypassAllRecords(m, ips);
    case DnsRoutes(servers, bypass) => DnsRecords(m, servers, bypass);
    case Exclude(dest) => ExcludeRecords(m, dest);
    case ExtraRoute(dest) => ExtraRecords(m, dest);
    case _ => SplitRecords(m);
  }

  lemma {:induction false} RunRecords(m: State, ops: seq<Op>)
    ensures var n := Run(m, ops);
      && SameArguments(m, n)
      && (forall d :: d in Bypassed(n) <==> d in Bypassed(m) || BypassAsked(m, ops, d))
      && (forall d :: d in Tunnelled(n) <==> d in Tunnelled(m) || TunnelAsked(m, ops, d))
    decreases |ops|
  {
    hide Apply, Bypassed, Tunnelled;
    if ops != [] {
      var n := Apply(m, ops[0]);
      ApplyRecords(m, ops[0]);
      RunRecords(n, ops[1..]);
      SameAsks(m, n);
      hide AsksBypass, AsksTunnel;
      assert ops == [ops[0]] + ops[1..];
    }
  }

  lemma SameAsks(m: State, n: State)
    requires SameArguments(m, n)
    ensures forall op, d :: AsksBypass(n, op, d) == AsksBypass(m, op, d)
    ensures forall op, d :: AsksTunnel(n, op, d) == AsksTunnel(m, op, d)
  {
    hide TrimSpace;
    assert forall servers, d :: AsksServer(n, servers, d) == AsksServer(m, servers, d);
  }

  // Whatever fails, a session's ledgers hold exactly what its calls asked for.
  lemma RecordedIsAsked(start: State, kill: bool, ops: seq<Op>)
    requires Fresh(start)
    ensures var m := Session(start, kill, ops);
      && SameArguments(start, m)
      && (forall d :: d in Bypassed(m) <==> BypassAsked(start, ops, d))
      && (forall d :: d in Recorded(m) <==> Asked(start, ops, d))
  {
    var first := if kill then AddKillSwitchRoute(start) else start;
    RunRecords(first, ops);
    SameAsks(start, first);
    RecordedIsBoth(Session(start, kill, ops));
    assert Bypassed(first) == [] && Tunnelled(first) == [];
    hide AsksBypass, AsksTunnel, Recorded, Run;
  }

  // ---------- What Cleanup restores ----------

  // The table without what the calls ask for.
  ghost function LessAsked(t0: Table, start: State, ops: seq<Op>): Table {
    map p | p in t0 && !Asked(start, ops, Some(p)) :: t0[p]
  }

  // Without a kill switch and with working deletes, Cleanup leaves the table of before
  // the session, less what its calls asked for and less what left through the tunnel.
  lemma CleanupExact(start: State, ops: seq<Op>)
    requires Fresh(start) && NoKillSwitch(ops)
    requires DeletesWork(Session(start, false, ops).kernel)
    ensures Cleanup(Session(start, false, ops)).kernel.table
         == WithoutDevice(LessAsked(start.kernel.table, start, ops), start.tun)
  {
    var m, t0 := Session(start, false, ops), start.kernel.table;
    SessionAccounted(start, false, ops);
    DeleteAllExact(m.kernel, Recorded(m));
    RecordedIsBoth(m);
    forall p | p in m.kernel.table && Some(p) !in Recorded(m) ensures p in t0 {
      assert Explained(m, t0, p);
    }
    RecordedIsAsked(start, false, ops);
    hide Asked, Recorded, Session;
    assert Minus(m.kernel.table, Recorded(m)) == LessAsked(t0, start, ops);
  }

  // So the table of before the session is restored, apart from tunnel routes, exactly
  // when no destination that was asked for had an entry outside the tunnel before.
  lemma CleanupRestoresIff(start: State, ops: seq<Op>)
    requires Fresh(start) && NoKillSwitch(ops)
    requires DeletesWork(Session(start, false, ops).kernel)
    ensures var t0 := start.kernel.table;
      Cleanup(Session(start, false, ops)).kernel.table == WithoutDevice(t0, start.tun) <==>
      forall p :: p in t0 && Asked(start, ops, Some(p)) ==> Through(t0[p], start.tun)
  {
    var t0 := start.kernel.table;
    CleanupExact(start, ops);
    hide Asked, Cleanup, Session;
    var c := WithoutDevice(LessAsked(t0, start, ops), start.tun);
    forall p | p in t0 && Asked(start, ops, Some(p)) && !Through(t0[p], start.tun)
      ensures c != WithoutDevice(t0, start.tun)
    {
      assert p !in c && p in WithoutDevice(t0, start.tun);
    }
  }

  // A session that costs an entry of before: an exclude that already had a route.
  lemma ExcludeCostsEntry(start: State, dest: string, p: Prefix)
    requires Fresh(start) && TrimSpace(dest) != "" && start.denote(TrimSpace(dest)) == Some(p)
    requires forall n :: !start.kernel.faults.del(n)
    requires p in start.kernel.table && !Through(start.kernel.table[p], start.tun)
    ensures p !in Cleanup(Session(start, false, [Exclude(dest)])).kernel.table
  {
    var ops := [Exclude(dest)];
    SessionAccounted(start, false, ops);
    CleanupExact(start, ops);
    assert AsksBypass(start, ops[0], Some(p));
  }

  // Whatever fails: Cleanup adds nothing, touches neither unrecorded entries nor their
  // next hops, and a recorded entry outlives it only if a delete of this Cleanup failed.
  lemma CleanupUnderFaults(start: State, kill: bool, ops: seq<Op>)
    requires Fresh(start) && NoKillSwitch(ops)
    ensures var m := Session(start, kill, ops); var t, c := m.kernel.table, Cleanup(m).kernel;
      && (forall p :: p in c.table ==> p in t && c.table[p] == t[p])
      && (forall p :: p in t && Some(p) !in Recorded(m) && !Through(t[p], m.tun) ==> p in c.table)
      && (forall p :: p in c.table && Some(p) in Recorded(m) ==>
            exists n | m.kernel.clock <= n < c.clock :: c.faults.del(n))
  {
    var m := Session(start, kill, ops);
    SessionAccounted(start, kill, ops);
    DeleteAllEffect(m.kernel, Recorded(m));
    var k := DeleteAll(m.kernel, Recorded(m));
    var c := Cleanup(m).kernel;
    assert c == LinkDown(k, m.tun);
    forall p | p in c.table && Some(p) in Recorded(m)
      ensures exists n | m.kernel.clock <= n < c.clock :: c.faults.del(n)
    {
      assert p in k.table;
      var n :| m.kernel.clock <= n < k.clock && k.faults.del(n);
    }
  }

  // If every delete of a Cleanup works, a second Cleanup changes nothing, even if its own
  // commands fail.
  lemma CleanupTwice(start: State, kill: bool, ops: seq<Op>)
    requires Fresh(start) && NoKillSwitch(ops)
    requires var m := Session(start, kill, ops);
      forall n :: m.kernel.clock <= n < Cleanup(m).kernel.clock ==> !m.kernel.faults.del(n)
    ensures var c := Cleanup(Session(start, kill, ops));
      Cleanup(c).kernel.table == c.kernel.table
  {
    var m := Session(start, kill, ops);
    SessionAccounted(start, kill, ops);
    DeleteAllEffect(m.kernel, Recorded(m));
    var c, k := Cleanup(m), DeleteAll(m.kernel, Recorded(m));
    assert Recorded(c) == Recorded(m);
    assert c.kernel == LinkDown(k, m.tun) && !k.faults.del(k.clock);
    hide Session, Recorded, Accounted;
    NothingLeftToDelete(c);
  }

  lemma NothingLeftToDelete(c: State)
    requires forall p :: p in c.kernel.table ==> Some(p) !in Recorded(c) && !Through(c.kernel.table[p], c.tun)
    requires c.killSwitchAdded ==> c.killSwitch
    ensures Cleanup(c).kernel.table == c.kernel.table
  {
    hide Recorded;
    DeleteAllEffect(c.kernel, Recorded(c));
    var k := DeleteAll(c.kernel, Recorded(c));
    assert k.table == c.kernel.table;
    assert WithoutDevice(k.table, c.tun) == k.table;
  }

  // ---------- The kill switch ----------

  // An address leaks if its route is neither the blackhole nor one of the routes that
  // are meant to bypass the tunnel: an entry of before, longer than the default, or a
  // bypass or exclude that was asked for.
  ghost predicate Blocked(t: Table, start: State, ops: seq<Op>, a: Address) {
    || Lookup(t, a) == Some(Blackhole)
    || exists p ::
         && BestMatch(t, a) == Some(p) && p in t && p != DEFAULT
         && (|| (p in start.kernel.table && t[p] == start.kernel.table[p])
             || (BypassAsked(start, ops, Some(p)) && t[p] == BypassHop(start)))
  }

  lemma BlockedWherever(t: Table, start: State, ops: seq<Op>, a: Address)
    requires Fresh(start) && NoKillSwitch(ops)
    requires var m := Session(start, true, ops);
      && m.killSwitchAdded && DEFAULT in t
      && forall p :: p in t ==> p in m.kernel.table && t[p] == m.kernel.table[p] && !Through(t[p], start.tun)
    ensures Blocked(t, start, ops, a)
  {
    var m, t0 := Session(start, true, ops), start.kernel.table;
    SessionAccounted(start, true, ops);
    RecordedIsAsked(start, true, ops);
    hide Session, BypassAsked, Bypassed, Tunnelled;
    BestMatchIsLongest(t, a);
    HalvesCoverEverything(a);
    MatchIsFound(t, a, DEFAULT);
    var p := BestMatch(t, a).value;
    assert IsLongest(t, a, p);
    assert Explained(m, t0, p);
  }

  // With the kill switch in, traffic is blocked as soon as the tunnel routes are gone,
  // whatever happened in the session before.
  lemma TunnelLossIsBlocked(start: State, ops: seq<Op>, a: Address)
    requires Fresh(start) && NoKillSwitch(ops)
    requires Session(start, true, ops).killSwitchAdded
    ensures Blocked(WithoutDevice(Session(start, true, ops).kernel.table, start.tun), start, ops, a)
  {
    SessionAccounted(start, true, ops);
    BlockedWherever(WithoutDevice(Session(start, true, ops).kernel.table, start.tun), start, ops, a);
  }

  // Cleanup leaves the blackhole in place exactly when nothing that was asked for is the
  // default route: a user-supplied exclude or extra route that denotes 0.0.0.0/0 has
  // Cleanup delete the kill switch.
  lemma KillSwitchOutlivesCleanupIff(start: State, ops: seq<Op>)
    requires Fresh(start) && NoKillSwitch(ops)
    requires var m := Session(start, true, ops); m.killSwitchAdded && DeletesWork(m.kernel)
    ensures var t := Cleanup(Session(start, true, ops)).kernel.table;
      (DEFAULT in t && t[DEFAULT] == Blackhole) <==> !Asked(start, ops, Some(DEFAULT))
  {
    var m := Session(start, true, ops);
    SessionAccounted(start, true, ops);
    DeleteAllExact(m.kernel, Recorded(m));
    RecordedIsAsked(start, true, ops);
    hide Session, Asked, Recorded;
  }

  // And then everything but the routes of before stays blocked after Cleanup.
  lemma CleanupStaysBlocked(start: State, ops: seq<Op>, a: Address)
    requires Fresh(start) && NoKillSwitch(ops) && !Asked(start, ops, Some(DEFAULT))
    requires var m := Session(start, true, ops); m.killSwitchAdded && DeletesWork(m.kernel)
    ensures var t, t0 := Cleanup(Session(start, true, ops)).kernel.table, start.kernel.table;
      || Lookup(t, a) == Some(Blackhole)
      || exists p :: BestMatch(t, a) == Some(p) && p in t && p != DEFAULT && p in t0 && t[p] == t0[p]
  {
    var m := Session(start, true, ops);
    SessionAccounted(start, true, ops);
    DeleteAllExact(m.kernel, Recorded(m));
    KillSwitchOutlivesCleanupIff(start, ops);
    RecordedIsAsked(start, true, ops);
    hide Session, BypassAsked, TunnelAsked, Recorded;
    var t := Cleanup(m).kernel.table;
    BlockedWherever(t, start, ops, a);
    BestMatchIsLongest(t, a);
  }

  // The session that loses its kill switch: an exclude of the default route.
  lemma KillSwitchLostToExclude(start: State, dest: string)
    requires Fresh(start) && start.denote(TrimSpace(dest)) == Some(DEFAULT) && TrimSpace(dest) != ""
    requires forall n :: !start.kernel.faults.add(n) && !start.kernel.faults.del(n)
    requires DEFAULT in start.kernel.table && start.kernel.table[DEFAULT] == BypassHop(start)
    requires start.dev != ""
    ensures var m := Session(start, true, [Exclude(dest)]);
      m.killSwitchAdded && DEFAULT !in Cleanup(m).kernel.table
  {
    var a, ops := AddKillSwitchRoute(start), [Exclude(dest)];
    var m := Session(start, true, ops);
    RunKeeps(a, start.kernel.table, ops) by {
      forall p | p in a.kernel.table ensures Explained(a, start.kernel.table, p) {}
    }
    assert m.killSwitchAdded;
    RecordedIsAsked(start, true, ops);
    assert AsksBypass(start, ops[0], Some(DEFAULT));
    DeleteAllExact(m.kernel, Recorded(m));
  }

  // When the blackhole cannot be installed, the original default route is promised back.
  // With a default route in place, it is still there exactly when it was not deleted in
  // the first place or is added again, for which it must have had a gateway; with none in
  // place, the attempt to restore it makes one up.
  lemma FailedKillSwitchRestoresIff(start: State)
    requires !start.killSwitchAdded && !AddKillSwitchRoute(start).killSwitchAdded
    ensures var t, c, f := start.kernel.table, start.kernel.clock, start.kernel.faults;
      var deleted := DEFAULT in t && !f.del(c) && (start.dev != "" ==> t[DEFAULT] == BypassHop(start));
      var added := start.gw != "" && start.dev != "" && !f.add(c + 2);
      AddKillSwitchRoute(start).kernel.table == t <==>
        if DEFAULT in t then deleted ==> added else !added
  {
    var t, n := start.kernel.table, AddKillSwitchRoute(start);
    if DEFAULT in t {
      assert (t - {DEFAULT})[DEFAULT := t[DEFAULT]] == t;
      assert DEFAULT !in t - {DEFAULT};
    } else {
      assert t - {DEFAULT} == t;
    }
  }

  // The session that loses its default route to a kill switch that then fails: a default
  // without a gateway, as a point-to-point link has it.
  lemma FailedKillSwitchLosesDefault(start: State)
    requires Fresh(start) && start.gw == "" && start.dev != ""
    requires DEFAULT in start.kernel.table && start.kernel.table[DEFAULT] == Device(start.dev)
    requires var c, f := start.kernel.clock, start.kernel.faults; !f.del(c) && f.add(c + 1)
    ensures var m := AddKillSwitchRoute(start);
      !m.killSwitchAdded && DEFAULT !in m.kernel.table && DEFAULT !in Cleanup(m).kernel.table
  {
    var m := AddKillSwitchRoute(start);
    DeleteAllEffect(m.kernel, Recorded(m));
  }
}
