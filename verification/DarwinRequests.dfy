/** What the calls of a macOS session ask for. Its ledgers, and what it leaks, never name a
    destination that no argument does. */
module DarwinRequests {
  import opened Text
  import opened RouteTable
  import opened DarwinRoutes
  import opened DarwinLedgers

  // The ledgers that may name entries of before hold only what the arguments of split and
  // extra routes ask for.
  ghost predicate AsksShared(m: State, op: Op, d: Option<Prefix>) {
    match op
    case SplitDefault => d == Some(LOWER_HALF) || d == Some(UPPER_HALF)
    case ExtraRoute(dest) =>
      TrimSpace(dest) != "" && m.denote(RouteDest(Classify(TrimSpace(dest)))) == d
    case _ => false
  }

  ghost predicate SharedAsked(m: State, ops: seq<Op>, d: Option<Prefix>) {
    exists op :: op in ops && AsksShared(m, op, d)
  }

  lemma SplitShares(m: State)
    ensures var n := AddSplitDefault(m);
      && n.denote == m.denote
      && forall d :: Shares(n, d) ==> Shares(m, d) || d == Some(LOWER_HALF) || d == Some(UPPER_HALF)
  {
    var a := AddVariant(m, "0.0.0.0", "128.0.0.0").0;
    AddVariantOutcome(m, "0.0.0.0");
    AddVariantOutcome(a, "128.0.0.0");
    hide AddVariant, HostSet, RouteSet, SplitSet, HostsOnce, RoutesOnce, SplitDest;
    OneMoreSplit(m, a, LOWER_HALF);
    OneMoreSplit(a, AddSplitDefault(m), UPPER_HALF);
  }

  lemma OneMoreSplit(m: State, n: State, half: Prefix)
    requires n.denote == m.denote && n.extra == m.extra
    requires n.splits == m.splits || exists s :: n.splits == m.splits + [s] && m.denote(SplitDest(s)) == Some(half)
    ensures forall d :: Shares(n, d) ==> Shares(m, d) || d == Some(half)
  {
    if n.splits != m.splits {
      var s :| n.splits == m.splits + [s] && m.denote(SplitDest(s)) == Some(half);
      SplitsGrow(m.denote, m.splits, s);
    }
  }

  lemma ExtraShares(m: State, dest: string)
    ensures var n := AddExtraRoute(m, dest);
      && n.denote == m.denote
      && forall d :: Shares(n, d) ==> Shares(m, d) || AsksShared(m, ExtraRoute(dest), d)
  {
    hide HostSet, RouteSet, SplitSet, HostsOnce, RoutesOnce, TrimSpace, Classify, RouteDest;
    RoutesGrow(m.denote, m.extra, Classify(TrimSpace(dest)));
  }

  lemma OthersShareNothing(m: State, op: Op)
    requires !op.SplitDefault? && !op.ExtraRoute?
    ensures var n := Apply(m, op); n.denote == m.denote && n.splits == m.splits && n.extra == m.extra
  {
    hide TrimSpace, Classify, RouteDest;
    match op
    case BypassEndpoint(host, ips) => BypassFrame(m, ips);
    case DnsRoutes(servers, bypass) => DnsFrame(m, servers, bypass);
    case _ =>
  }

  lemma OneShares(m: State, op: Op)
    ensures var n := Apply(m, op);
      && n.denote == m.denote
      && forall d :: Shares(n, d) ==> Shares(m, d) || AsksShared(m, op, d)
  {
    hide AddSplitDefault, AddExtraRoute;
    match op
    case SplitDefault => SplitShares(m);
    case ExtraRoute(dest) => ExtraShares(m, dest);
    case _ =>
      hide Apply;
      OthersShareNothing(m, op);
  }

  lemma {:induction false} RunShares(m: State, ops: seq<Op>)
    ensures var n := Run(m, ops);
      && n.denote == m.denote
      && forall d :: Shares(n, d) ==> Shares(m, d) || SharedAsked(m, ops, d)
    decreases |ops|
  {
    hide Apply, Shares;
    if ops != [] {
      OneShares(m, ops[0]);
      RunShares(Apply(m, ops[0]), ops[1..]);
      SameAsks(m, Apply(m, ops[0]));
      hide AsksShared;
      assert ops == [ops[0]] + ops[1..];
    }
  }

  lemma SameAsks(m: State, n: State)
    requires n.denote == m.denote
    ensures forall op, d :: AsksShared(n, op, d) == AsksShared(m, op, d)
  {
  }

  // Likewise the ledgers of bypasses, excludes and DNS routes.
  ghost predicate AsksOwned(m: State, op: Op, d: Option<Prefix>) {
    match op
    case BypassEndpoint(host, ips) =>
      host != "" && m.gw != "" && exists ip :: Some(ip) in ips && m.denote(Host(ip)) == d
    case Exclude(dest) => TrimSpace(dest) != "" && m.denote(RouteDest(Classify(TrimSpace(dest)))) == d
    case DnsRoutes(servers, bypass) => (bypass ==> m.gw != "") && AsksServer(m, servers, d)
    case _ => false
  }

  ghost predicate AsksServer(m: State, servers: seq<string>, d: Option<Prefix>) {
    exists s :: s in servers && TrimSpace(s) != "" && '/' !in TrimSpace(s) && m.denote(Host(TrimSpace(s))) == d
  }

  ghost predicate OwnedAsked(m: State, ops: seq<Op>, d: Option<Prefix>) {
    exists op :: op in ops && AsksOwned(m, op, d)
  }

  ghost predicate SameArguments(m: State, n: State) { n.denote == m.denote && n.gw == m.gw }

  lemma BypassOneOwns(m: State, ip: string)
    ensures SameArguments(m, BypassOne(m, ip))
    ensures forall d :: Owns(BypassOne(m, ip), d) ==> Owns(m, d) || m.denote(Host(ip)) == d
  {
    hide HostSet, RouteSet, SplitSet, HostsOnce, RoutesOnce;
    HostsGrow(m.denote, m.ctrlBypass, ip);
  }

  lemma {:induction false} BypassAllOwns(m: State, ips: seq<Option<string>>)
    ensures var n := BypassAll(m, ips);
      && SameArguments(m, n)
      && forall d :: Owns(n, d) ==> Owns(m, d) || exists ip :: Some(ip) in ips && m.denote(Host(ip)) == d
    decreases |ips|
  {
    hide Owns, BypassOne;
    if ips != [] {
      if ips[0].Some? {
        BypassOneOwns(m, ips[0].value);
        BypassAllOwns(BypassOne(m, ips[0].value), ips[1..]);
      } else {
        BypassAllOwns(m, ips[1..]);
      }
      assert ips == [ips[0]] + ips[1..];
    }
  }

  lemma ExcludeViaOwns(m: State, r: AddedRoute, hop: NextHop)
    ensures SameArguments(m, ExcludeVia(m, r, hop))
    ensures forall d :: Owns(ExcludeVia(m, r, hop), d) ==> Owns(m, d) || m.denote(RouteDest(r)) == d
  {
    hide HostSet, RouteSet, SplitSet, HostsOnce, RoutesOnce, RouteDest;
    RoutesGrow(m.denote, m.excludes, r);
  }

  lemma ExcludeOwns(m: State, dest: string)
    ensures SameArguments(m, AddExclude(m, dest))
    ensures forall d :: Owns(AddExclude(m, dest), d) ==> Owns(m, d) || AsksOwned(m, Exclude(dest), d)
  {
    hide Owns, TrimSpace, Classify, ExcludeVia, RouteDest;
    var r := Classify(TrimSpace(dest));
    ExcludeViaOwns(m, r, Gateway(m.gw));
    ExcludeViaOwns(m, r, Reject);
    ExcludeViaOwns(ExcludeVia(m, r, Gateway(m.gw)), r, Reject);
  }

  lemma DnsOneOwns(m: State, ip: string, bypass: bool)
    ensures var n, text := DnsOne(m, ip, bypass), TrimSpace(ip);
      && SameArguments(m, n)
      && forall d :: Owns(n, d) ==>
           (Owns(m, d) || ((bypass ==> m.gw != "") && text != "" && '/' !in text && m.denote(Host(text)) == d))
  {
    hide HostSet, RouteSet, SplitSet, HostsOnce, RoutesOnce, TrimSpace;
    HostsGrow(m.denote, m.dnsBypass, TrimSpace(ip));
    RoutesGrow(m.denote, m.dnsTun, AddedRoute(true, TrimSpace(ip)));
  }

  lemma {:induction false} DnsOwns(m: State, ips: seq<string>, bypass: bool)
    ensures var n := AddDNSServerRoutes(m, ips, bypass);
      && SameArguments(m, n)
      && forall d :: Owns(n, d) ==> Owns(m, d) || ((bypass ==> m.gw != "") && AsksServer(m, ips, d))
    decreases |ips|
  {
    hide Owns, TrimSpace, DnsOne;
    if ips != [] {
      DnsOneOwns(m, ips[0], bypass);
      DnsOwns(DnsOne(m, ips[0], bypass), ips[1..], bypass);
      assert ips == [ips[0]] + ips[1..];
    }
  }

  // The owned ledgers of n are those of m, or fewer.
  lemma SameLedgers(m: State, n: State)
    requires SameArguments(m, n) && n.ctrlBypass == m.ctrlBypass && n.excludes == m.excludes && n.dnsTun == m.dnsTun
    requires n.dnsBypass == m.dnsBypass || n.dnsBypass == []
    ensures forall d :: Owns(n, d) ==> Owns(m, d)
  {
  }

  lemma SplitOwnsNothing(m: State)
    ensures SameArguments(m, AddSplitDefault(m))
    ensures forall d :: Owns(AddSplitDefault(m), d) ==> Owns(m, d)
  {
    hide AddVariant, Owns;
    var a := AddVariant(m, "0.0.0.0", "128.0.0.0").0;
    AddVariantOutcome(m, "0.0.0.0");
    AddVariantOutcome(a, "128.0.0.0");
    SameLedgers(m, AddSplitDefault(m));
  }

  lemma ExtraOwnsNothing(m: State, dest: string)
    ensures SameArguments(m, AddExtraRoute(m, dest))
    ensures forall d :: Owns(AddExtraRoute(m, dest), d) ==> Owns(m, d)
  {
    hide Owns, TrimSpace, Classify, RouteDest;
    SameLedgers(m, AddExtraRoute(m, dest));
  }

  lemma OthersOwnNothing(m: State, op: Op)
    requires op.SplitDefault? || op.ExtraRoute? || op.KillSwitch? || op.DropDnsBypass?
    ensures var n := Apply(m, op);
      && SameArguments(m, n)
      && forall d :: Owns(n, d) ==> Owns(m, d)
  {
    hide AddSplitDefault, AddExtraRoute, Owns;
    match op
    case SplitDefault => SplitOwnsNothing(m);
    case ExtraRoute(dest) => ExtraOwnsNothing(m, dest);
    case _ => SameLedgers(m, Apply(m, op));
  }

  lemma OneOwns(m: State, op: Op)
    ensures var n := Apply(m, op);
      && SameArguments(m, n)
      && forall d :: Owns(n, d) ==> Owns(m, d) || AsksOwned(m, op, d)
  {
    hide AddExclude, AddExtraRoute, AddSplitDefault, AddKillSwitchRoute, RemoveDNSBypass, Owns, TrimSpace;
    match op
    case BypassEndpoint(host, ips) => BypassAllOwns(m, ips);
    case DnsRoutes(servers, bypass) => DnsOwns(m, servers, bypass);
    case Exclude(dest) => ExcludeOwns(m, dest);
    case _ => OthersOwnNothing(m, op);
  }

  lemma {:induction false} RunOwns(m: State, ops: seq<Op>)
    ensures var n := Run(m, ops);
      && SameArguments(m, n)
      && forall d :: Owns(n, d) ==> Owns(m, d) || OwnedAsked(m, ops, d)
    decreases |ops|
  {
    hide Apply, Owns;
    if ops != [] {
      var n := Apply(m, ops[0]);
      OneOwns(m, ops[0]);
      RunOwns(n, ops[1..]);
      SameOwnedAsks(m, n);
      hide AsksOwned;
      assert ops == [ops[0]] + ops[1..];
    }
  }

  lemma SameOwnedAsks(m: State, n: State)
    requires SameArguments(m, n)
    ensures forall op, d :: AsksOwned(n, op, d) == AsksOwned(m, op, d)
  {
    hide TrimSpace, Classify, RouteDest;
    assert forall servers, d :: AsksServer(n, servers, d) == AsksServer(m, servers, d);
  }

  // No ledger ever names a destination that the arguments of the calls do not.
  lemma RecordedIsAsked(start: State, kill: bool, ops: seq<Op>)
    requires Fresh(start)
    ensures forall d :: d in Recorded(Session(start, kill, ops)) ==> SharedAsked(start, ops, d) || OwnedAsked(start, ops, d)
  {
    var m, first := Session(start, kill, ops), First(start, kill);
    SharedIsAsked(start, kill, ops);
    assert forall d :: !Owns(first, d);
    RunOwns(first, ops);
    SameOwnedAsks(start, first);
    RecordedIsBoth(m);
    hide AsksOwned, AsksShared, Owns, Shares, Run, Recorded;
  }

  lemma SharedIsAsked(start: State, kill: bool, ops: seq<Op>)
    requires Fresh(start)
    ensures var m := Session(start, kill, ops);
      && m.denote == start.denote
      && forall d :: Shares(m, d) ==> SharedAsked(start, ops, d)
  {
    var first := First(start, kill);
    assert forall d :: !Shares(first, d);
    RunShares(first, ops);
    SameAsks(start, first);
    hide AsksShared, Shares, Run;
  }

  // What leaks was owned, and what was owned was asked for.
  lemma {:induction false} LeaksAreAsked(m: State, ops: seq<Op>)
    ensures forall d :: d in Leaks(m, ops) ==> Owns(m, d) || OwnedAsked(m, ops, d)
    decreases |ops|
  {
    if ops != [] {
      var n := Apply(m, ops[0]);
      assert forall d :: d in Forgotten(m) ==> Owns(m, d);
      hide Apply, Owns, Forgotten;
      OneOwns(m, ops[0]);
      LeaksAreAsked(n, ops[1..]);
      SameOwnedAsks(m, n);
      hide AsksOwned;
      assert ops == [ops[0]] + ops[1..];
    }
  }

  // So an entry that bypasses the tunnel, recorded or leaked, was asked for.
  lemma BypassIsAsked(start: State, kill: bool, ops: seq<Op>)
    requires Fresh(start)
    ensures forall d :: Bypasses(Session(start, kill, ops), d) || d in Leaks(First(start, kill), ops) ==>
      OwnedAsked(start, ops, d)
  {
    var first := First(start, kill);
    assert forall d :: !Owns(first, d);
    assert forall d :: Bypasses(Session(start, kill, ops), d) ==> Owns(Session(start, kill, ops), d);
    RunOwns(first, ops);
    LeaksAreAsked(first, ops);
    SameOwnedAsks(start, first);
    hide AsksOwned, Owns, Bypasses, Run, Leaks;
  }
}
