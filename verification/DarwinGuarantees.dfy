/** What a whole macOS session guarantees: what Cleanup restores and what it leaves behind,
    and what the kill switch blocks. */
module DarwinGuarantees {
  import opened Text
  import opened RouteTable
  import opened DarwinRoutes
  import opened DarwinLedgers
  import opened DarwinRequests

  // ---------- The exact ledger ----------

  ghost predicate OwnedOnly(ops: seq<Op>) {
    forall op :: op in ops ==> !op.SplitDefault? && !op.ExtraRoute? && !op.KillSwitch?
  }

  lemma {:induction false} OwnedOnlySharesNothing(m: State, ops: seq<Op>)
    requires OwnedOnly(ops)
    ensures Run(m, ops).splits == m.splits && Run(m, ops).extra == m.extra
    decreases |ops|
  {
    if ops != [] {
      assert ops[0] in ops;
      hide Apply;
      OthersShareNothing(m, ops[0]);
      OwnedOnlySharesNothing(Apply(m, ops[0]), ops[1..]);
    }
  }

  lemma NothingShared(start: State, ops: seq<Op>)
    requires Fresh(start) && OwnedOnly(ops)
    ensures var m := Session(start, false, ops); m.splits == [] && m.extra == []
    ensures forall d :: !Shares(Session(start, false, ops), d)
  {
    OwnedOnlySharesNothing(start, ops);
  }

  // Bypasses, excludes, DNS routes and the dropping of DNS bypasses, in any order and with
  // any failures: the table is that of before plus the recorded and the leaked entries. The
  // recorded ones are recorded once each, and neither were there before.
  lemma ExactLedger(start: State, ops: seq<Op>)
    requires Fresh(start) && OwnedOnly(ops)
    ensures var m, t0, leaks := Session(start, false, ops), start.kernel.table, Leaks(start, ops);
      && (forall p :: p in m.kernel.table <==> p in t0 || Some(p) in Recorded(m) || Some(p) in leaks)
      && (forall p :: p in t0 ==> m.kernel.table[p] == t0[p] && Some(p) !in Recorded(m) && Some(p) !in leaks)
      && (forall d :: d in leaks ==> d.Some? && d !in Recorded(m))
      && None !in Recorded(m) && Pairwise(Recorded(m))
  {
    var m, t0, leaks := Session(start, false, ops), start.kernel.table, Leaks(start, ops);
    SessionLedgered(start, false, ops);
    NothingShared(start, ops);
    RecordedIsBoth(m);
    ExactView(ViewOf(m, leaks), t0);
    RecordedOnce(m, t0, leaks);
  }

  lemma ExactView(v: View, t0: Table)
    requires Ledgered(v, t0) && !v.killSwitch && forall d :: !v.Shares(d)
    ensures forall p :: p in v.table <==> p in t0 || v.Owns(Some(p)) || Some(p) in v.leaks
    ensures forall p :: p in t0 ==> v.table[p] == t0[p] && !v.Owns(Some(p)) && Some(p) !in v.leaks
    ensures forall d :: d in v.leaks ==> d.Some? && !v.Owns(d)
    ensures !v.Owns(None)
  {
    assert forall d :: d in v.split ==> v.Shares(d);
    forall p | p in v.table ensures p in t0 || v.Owns(Some(p)) || Some(p) in v.leaks {
      assert Explained(v, t0, p);
      assert !v.Shares(Some(p));
    }
  }

  lemma PairwiseConcat(a: seq<Option<Prefix>>, b: seq<Option<Prefix>>)
    requires Pairwise(a) && Pairwise(b) && forall d :: d in a ==> d !in b
    ensures Pairwise(a + b)
  {
    forall i, j | 0 <= i < j < |a + b| ensures (a + b)[i] != (a + b)[j] {
      assert i < |a| ==> a[i] in a;
    }
  }

  lemma RecordedOnce(m: State, t0: Table, leaks: Dests)
    requires OwnedOnce(ViewOf(m, leaks), t0) && m.splits == [] && m.extra == []
    ensures Pairwise(Recorded(m))
  {
    hide HostSet, RouteSet, SplitSet, HostsOnce, RoutesOnce;
    HostSetIs(m.denote, m.ctrlBypass);
    HostSetIs(m.denote, m.dnsBypass);
    RouteSetIs(m.denote, m.excludes);
    RouteSetIs(m.denote, m.dnsTun);
    var c, d := Hosts(m.denote, m.ctrlBypass), Hosts(m.denote, m.dnsBypass);
    var e, t := Routes(m.denote, m.excludes), Routes(m.denote, m.dnsTun);
    assert SplitRoutes(m.denote, m.splits) == [] && Routes(m.denote, m.extra) == [];
    assert Recorded(m) == ((e + c) + d) + t;
    PairwiseConcat(e, c);
    PairwiseConcat(e + c, d);
    PairwiseConcat((e + c) + d, t);
  }

  // The ledgers account for everything that the session added exactly when no delete of
  // a drop failed: what such a delete leaves behind is never accounted for again.
  lemma ExactLedgerIff(start: State, ops: seq<Op>)
    requires Fresh(start) && OwnedOnly(ops)
    ensures var m, t0 := Session(start, false, ops), start.kernel.table;
      (forall p :: p in m.kernel.table && p !in t0 ==> Some(p) in Recorded(m)) <==> DropsWork(start, ops)
  {
    var m, leaks := Session(start, false, ops), Leaks(start, ops);
    SessionLedgered(start, false, ops);
    ExactLedger(start, ops);
    hide Session, Recorded, Leaks, DropsWork;
    if leaks != {} {
      var d :| d in leaks;
      assert d.value in m.kernel.table && d !in Recorded(m);
    }
  }

  // ---------- What Cleanup restores ----------

  lemma CleanupTable(m: State)
    requires DeletesWork(m.kernel) && (m.killSwitchAdded ==> m.killSwitch)
    ensures Cleanup(m).kernel.table == WithoutDevice(Minus(m.kernel.table, Recorded(m)), m.tun)
  {
    hide Recorded;
    DeleteAllExact(m.kernel, Recorded(m));
  }

  // Without a kill switch, Cleanup leaves the entries of before, apart from tunnel routes,
  // and the leaked ones, less what the split and extra ledgers name of either.
  lemma CleanupExact(start: State, ops: seq<Op>)
    requires Fresh(start) && NoKillSwitch(ops) && DeletesWork(Session(start, false, ops).kernel)
    ensures var m, t0 := Session(start, false, ops), start.kernel.table;
      var c := Cleanup(m).kernel.table;
      && (forall p :: p in c <==>
            !Shares(m, Some(p)) && ((p in t0 && !Through(t0[p], start.tun)) || Some(p) in Leaks(start, ops)))
      && (forall p :: p in c && p in t0 ==> c[p] == t0[p])
      && (forall p :: p in c && p !in t0 ==> c[p] == Gateway(start.gw) || c[p] == Reject)
  {
    var m, t0, leaks := Session(start, false, ops), start.kernel.table, Leaks(start, ops);
    SessionLedgered(start, false, ops);
    CleanupTable(m);
    RecordedIsBoth(m);
    CleanView(ViewOf(m, leaks), t0);
    hide Ledgered, Cleanup, Recorded, Session, Leaks, NoKillSwitch, Owns, Shares;
    assert forall d :: Owns(m, d) <==> ViewOf(m, leaks).Owns(d) by { SameView(m, leaks); }
    assert forall d :: Shares(m, d) <==> ViewOf(m, leaks).Shares(d) by { SameView(m, leaks); }
    assert ViewOf(m, leaks).table == m.kernel.table && ViewOf(m, leaks).leaks == leaks;
  }

  lemma SameView(m: State, leaks: Dests)
    ensures forall d :: Owns(m, d) <==> ViewOf(m, leaks).Owns(d)
    ensures forall d :: Shares(m, d) <==> ViewOf(m, leaks).Shares(d)
    ensures forall d :: Bypasses(m, d) <==> ViewOf(m, leaks).Bypasses(d)
  {
  }

  lemma CleanView(v: View, t0: Table)
    requires Ledgered(v, t0) && !v.killSwitch
    ensures forall p :: p in v.table && !v.Owns(Some(p)) && !v.Shares(Some(p)) ==>
      || (p in t0 && v.table[p] == t0[p])
      || (p !in t0 && Some(p) in v.leaks && (v.table[p] == Gateway(v.gw) || v.table[p] == Reject))
    ensures forall p :: p in t0 && !v.Shares(Some(p)) ==>
      !v.Owns(Some(p)) && p in v.table && v.table[p] == t0[p]
    ensures forall d :: d in v.leaks ==> d.Some? && d.value in v.table && d.value !in t0 && !v.Owns(d)
  {
    forall p | p in v.table && !v.Owns(Some(p)) && !v.Shares(Some(p))
      ensures
        || (p in t0 && v.table[p] == t0[p])
        || (p !in t0 && Some(p) in v.leaks && (v.table[p] == Gateway(v.gw) || v.table[p] == Reject))
    {
      assert Explained(v, t0, p);
    }
  }

  // So the table of before comes back, apart from tunnel routes, exactly when no split or
  // extra ledger entry names a prefix that had an entry outside the tunnel before, and
  // each leaked entry happens to be named by one. In particular bypasses, excludes and DNS
  // routes never stand in the way as long as drops work.
  lemma CleanupRestoresIff(start: State, ops: seq<Op>)
    requires Fresh(start) && NoKillSwitch(ops) && DeletesWork(Session(start, false, ops).kernel)
    ensures var m, t0 := Session(start, false, ops), start.kernel.table;
      Cleanup(m).kernel.table == WithoutDevice(t0, start.tun) <==>
        && (forall p :: p in t0 && Shares(m, Some(p)) ==> Through(t0[p], start.tun))
        && (forall d :: d in Leaks(start, ops) ==> Shares(m, d))
  {
    var m, t0, leaks := Session(start, false, ops), start.kernel.table, Leaks(start, ops);
    SessionLedgered(start, false, ops);
    CleanView(ViewOf(m, leaks), t0);
    assert forall d :: d in leaks ==> d.Some? && d.value !in t0;
    CleanupExact(start, ops);
    hide Cleanup, Shares, Leaks, Session, Ledgered, ViewOf;
    SameTableIff(Cleanup(m).kernel.table, t0, start.tun, m, leaks);
  }

  lemma SameTableIff(c: Table, t0: Table, tun: string, m: State, leaks: Dests)
    requires forall p :: p in c <==> !Shares(m, Some(p)) && ((p in t0 && !Through(t0[p], tun)) || Some(p) in leaks)
    requires forall p :: p in c && p in t0 ==> c[p] == t0[p]
    requires forall d :: d in leaks ==> d.Some? && d.value !in t0
    ensures c == WithoutDevice(t0, tun) <==>
      && (forall p :: p in t0 && Shares(m, Some(p)) ==> Through(t0[p], tun))
      && (forall d :: d in leaks ==> Shares(m, d))
  {
    hide Shares;
    var w := WithoutDevice(t0, tun);
    if c == w {
      forall d | d in leaks ensures Shares(m, d) {
        assert d.value !in w;
      }
      forall p | p in t0 && Shares(m, Some(p)) ensures Through(t0[p], tun) {
        assert p !in w;
      }
    }
  }

  // Bypasses, excludes, DNS routes and their dropping take nothing away, and leave nothing
  // behind exactly when no delete of a drop failed.
  lemma OwnedOnlyRestoresIff(start: State, ops: seq<Op>)
    requires Fresh(start) && OwnedOnly(ops) && DeletesWork(Session(start, false, ops).kernel)
    ensures Cleanup(Session(start, false, ops)).kernel.table == WithoutDevice(start.kernel.table, start.tun)
      <==> DropsWork(start, ops)
  {
    SessionLedgered(start, false, ops);
    NothingShared(start, ops);
    hide Ledgered, Shares, Session, Cleanup, Leaks, DropsWork;
    CleanupRestoresIff(start, ops);
    if Leaks(start, ops) != {} {
      var d :| d in Leaks(start, ops);
    }
  }

  // Whatever adds fail, the table comes back unless a split or extra route was asked for
  // where an entry outside the tunnel stood.
  lemma CleanupRestoresUnlessAsked(start: State, ops: seq<Op>)
    requires Fresh(start) && NoKillSwitch(ops) && DropsWork(start, ops) && DeletesWork(Session(start, false, ops).kernel)
    requires forall p :: p in start.kernel.table && SharedAsked(start, ops, Some(p)) ==> Through(start.kernel.table[p], start.tun)
    ensures Cleanup(Session(start, false, ops)).kernel.table == WithoutDevice(start.kernel.table, start.tun)
  {
    SessionLedgered(start, false, ops);
    SharedIsAsked(start, false, ops);
    hide Shares, SharedAsked, Ledgered, Leaks, DropsWork, Session, Cleanup;
    CleanupRestoresIff(start, ops);
  }

  // ---------- The kill switch ----------

  // An address leaks if its route is neither the blackhole nor a specific entry of before
  // or a bypass or exclude that was asked for.
  ghost predicate Blocked(t: Table, start: State, ops: seq<Op>, a: Address) {
    || Lookup(t, a) == Some(Blackhole)
    || exists p ::
         && BestMatch(t, a) == Some(p) && p in t && p != DEFAULT
         && (|| (p in start.kernel.table && t[p] == start.kernel.table[p])
             || (OwnedAsked(start, ops, Some(p)) && (t[p] == Gateway(start.gw) || t[p] == Reject)))
  }

  // With the kill switch in, traffic is blocked as soon as the tunnel routes are gone,
  // whatever happened in the session before.
  lemma TunnelLossIsBlocked(start: State, ops: seq<Op>, a: Address)
    requires Fresh(start) && NoKillSwitch(ops) && Session(start, true, ops).killSwitchAdded
    ensures Blocked(WithoutDevice(Session(start, true, ops).kernel.table, start.tun), start, ops, a)
  {
    var m, leaks := Session(start, true, ops), Leaks(First(start, true), ops);
    SessionLedgered(start, true, ops);
    BypassIsAsked(start, true, ops);
    SameView(m, leaks);
    hide Session, Leaks, OwnedAsked, Owns, Shares, Bypasses;
    var t := WithoutDevice(m.kernel.table, start.tun);
    HalvesCoverEverything(a);
    MatchIsFound(t, a, DEFAULT);
    var p := BestMatch(t, a).value;
    assert IsLongest(t, a, p) by { BestMatchIsLongest(t, a); }
    assert Explained(ViewOf(m, leaks), start.kernel.table, p);
  }

  // An exclude of the default route is not recorded once the blackhole is there, so only
  // an extra route can have Cleanup delete the kill switch.
  lemma KillSwitchOutlivesCleanupIff(start: State, ops: seq<Op>)
    requires Fresh(start) && NoKillSwitch(ops)
    requires var m := Session(start, true, ops); m.killSwitchAdded && DeletesWork(m.kernel)
    ensures var m := Session(start, true, ops); var t := Cleanup(m).kernel.table;
      (DEFAULT in t && t[DEFAULT] == Blackhole) <==> Some(DEFAULT) !in Routes(m.denote, m.extra)
  {
    var m := Session(start, true, ops);
    var v := ViewOf(m, Leaks(First(start, true), ops));
    SessionLedgered(start, true, ops);
    SplitsAreHalves(start, true, ops);
    RouteSetIs(m.denote, m.extra);
    assert !Owns(m, Some(DEFAULT)) by { SameView(m, v.leaks); }
    assert v.table == m.kernel.table && v.killSwitchAdded == m.killSwitchAdded && v.killSwitch == m.killSwitch;
    assert Shares(m, Some(DEFAULT)) <==> Some(DEFAULT) in Routes(m.denote, m.extra);
    RecordedIsBoth(m);
    hide ViewOf, Recorded, Session, Owns, Shares, Cleanup, Leaks;
    CleanupTable(m);
  }

  // And the kill switch outlives Cleanup unless an extra route for the default was asked for.
  lemma KillSwitchOutlivesUnlessAsked(start: State, ops: seq<Op>)
    requires Fresh(start) && NoKillSwitch(ops) && !SharedAsked(start, ops, Some(DEFAULT))
    requires var m := Session(start, true, ops); m.killSwitchAdded && DeletesWork(m.kernel)
    ensures var t := Cleanup(Session(start, true, ops)).kernel.table; DEFAULT in t && t[DEFAULT] == Blackhole
  {
    var m := Session(start, true, ops);
    SharedIsAsked(start, true, ops);
    assert !Shares(m, Some(DEFAULT));
    RouteSetIs(m.denote, m.extra);
    hide SharedAsked;
    KillSwitchOutlivesCleanupIff(start, ops);
  }

  // Then everything stays blocked after Cleanup but for specific entries of before and for
  // leaks, of which there are none exactly when no delete of a drop failed.
  lemma CleanupStaysBlocked(start: State, ops: seq<Op>, a: Address)
    requires Fresh(start) && NoKillSwitch(ops)
    requires var m := Session(start, true, ops);
      m.killSwitchAdded && DeletesWork(m.kernel) && Some(DEFAULT) !in Routes(m.denote, m.extra)
    ensures var t, t0, leaks := Cleanup(Session(start, true, ops)).kernel.table, start.kernel.table, Leaks(First(start, true), ops);
      && (leaks == {} <==> DropsWork(First(start, true), ops))
      && (|| Lookup(t, a) == Some(Blackhole)
          || exists p :: BestMatch(t, a) == Some(p) && p in t && p != DEFAULT
                         && ((p in t0 && t[p] == t0[p]) || Some(p) in leaks))
  {
    var m, leaks := Session(start, true, ops), Leaks(First(start, true), ops);
    SessionLedgered(start, true, ops);
    KillSwitchOutlivesCleanupIff(start, ops);
    RecordedIsBoth(m);
    CleanupTable(m);
    SameView(m, leaks);
    hide Session, Cleanup, Recorded, Leaks, DropsWork, Owns, Shares, Bypasses, HostSet, RouteSet, SplitSet;
    var t := Cleanup(m).kernel.table;
    HalvesCoverEverything(a);
    MatchIsFound(t, a, DEFAULT);
    var p := BestMatch(t, a).value;
    assert IsLongest(t, a, p) by { BestMatchIsLongest(t, a); }
    assert Explained(ViewOf(m, leaks), start.kernel.table, p);
  }

  ghost predicate OnlyHalves(m: State) {
    forall s :: s in m.splits ==> m.denote(SplitDest(s)) in {Some(LOWER_HALF), Some(UPPER_HALF)}
  }

  lemma SplitsAreHalves(start: State, kill: bool, ops: seq<Op>)
    requires Fresh(start)
    requires forall op :: op in ops ==> !op.KillSwitch?
    ensures OnlyHalves(Session(start, kill, ops))
    ensures var m := Session(start, kill, ops); Some(DEFAULT) !in SplitSet(m.denote, m.splits)
  {
    RunHalves(First(start, kill), ops);
    var m := Session(start, kill, ops);
    forall i | 0 <= i < |m.splits|
      ensures SplitRoutes(m.denote, m.splits)[i] != Some(DEFAULT)
    {
      assert m.splits[i] in m.splits;
    }
    SplitSetIs(m.denote, m.splits);
    assert Some(DEFAULT) !in SplitRoutes(m.denote, m.splits);
  }

  lemma SplitHalves(m: State)
    requires OnlyHalves(m)
    ensures OnlyHalves(AddSplitDefault(m)) && AddSplitDefault(m).denote == m.denote
  {
    hide AddVariant;
    AddVariantOutcome(m, "0.0.0.0");
    AddVariantOutcome(AddVariant(m, "0.0.0.0", "128.0.0.0").0, "128.0.0.0");
  }

  lemma ApplyHalves(m: State, op: Op)
    requires OnlyHalves(m)
    ensures OnlyHalves(Apply(m, op)) && Apply(m, op).denote == m.denote
  {
    hide AddSplitDefault;
    match op
    case SplitDefault => SplitHalves(m);
    case BypassEndpoint(host, ips) => BypassFrame(m, ips);
    case DnsRoutes(servers, bypass) => DnsFrame(m, servers, bypass);
    case _ =>
  }

  lemma {:induction false} RunHalves(m: State, ops: seq<Op>)
    requires OnlyHalves(m)
    ensures OnlyHalves(Run(m, ops)) && Run(m, ops).denote == m.denote
    decreases |ops|
  {
    if ops != [] {
      hide Apply, OnlyHalves;
      ApplyHalves(m, ops[0]);
      RunHalves(Apply(m, ops[0]), ops[1..]);
    }
  }

  // If the blackhole cannot be installed, nothing restores the default route that was
  // deleted for it, not even Cleanup: the table is unchanged exactly when there was
  // nothing to delete, or no gateway to delete it for, or the delete failed too.
  lemma FailedKillSwitchRestoresIff(start: State)
    requires Fresh(start) && !AddKillSwitchRoute(start).killSwitchAdded
    ensures var n := AddKillSwitchRoute(start);
      && (n.kernel.table == start.kernel.table <==>
            start.gw == "" || DEFAULT !in start.kernel.table || start.kernel.faults.del(start.kernel.clock))
      && (DEFAULT !in n.kernel.table ==> DEFAULT !in Cleanup(n).kernel.table)
  {
    var t, n := start.kernel.table, AddKillSwitchRoute(start);
    if DEFAULT !in t {
      assert t - {DEFAULT} == t;
    }
    DeleteAllEffect(n.kernel, Recorded(n));
  }

  // ---------- Sessions that end badly ----------

  lemma RunSingle(m: State, op: Op)
    ensures Run(m, [op]) == Apply(m, op)
  {
    assert [op][1..] == [];
  }

  lemma DeleteSingle(k: Kernel, d: Option<Prefix>)
    ensures DeleteAll(k, [d]) == Delete(k, d)
  {
    assert [d][1..] == [];
  }

  // The default route is deleted for a blackhole that then fails, and stays lost.
  lemma FailedKillSwitchLosesDefault(start: State)
    requires Fresh(start) && start.gw != "" && DEFAULT in start.kernel.table
    requires var c, f := start.kernel.clock, start.kernel.faults; !f.del(c) && f.add(c + 1)
    ensures var m := AddKillSwitchRoute(start);
      !m.killSwitchAdded && DEFAULT !in m.kernel.table && DEFAULT !in Cleanup(m).kernel.table
  {
    FailedKillSwitchRestoresIff(start);
  }

  // An extra route for a prefix that already has an entry is recorded, and Cleanup deletes
  // the entry of before.
  lemma ExtraRouteCostsEntry(start: State, dest: string, p: Prefix)
    requires Fresh(start) && TrimSpace(dest) != ""
    requires start.denote(RouteDest(Classify(TrimSpace(dest)))) == Some(p) && p in start.kernel.table
    requires forall n :: !start.kernel.faults.add(n) && !start.kernel.faults.del(n)
    ensures p !in Cleanup(Session(start, false, [ExtraRoute(dest)])).kernel.table
  {
    hide TrimSpace, RouteDest, Classify, AddExtraRoute, Recorded, Cleanup;
    RunSingle(start, ExtraRoute(dest));
    ExistingIsRecorded(start, dest, p);
    CleanupTable(AddExtraRoute(start, dest));
  }

  // With a kill switch, the same costs the blackhole.
  lemma KillSwitchLostToExtraRoute(start: State, dest: string)
    requires Fresh(start) && start.gw != "" && TrimSpace(dest) != ""
    requires start.denote(RouteDest(Classify(TrimSpace(dest)))) == Some(DEFAULT)
    requires forall n :: !start.kernel.faults.add(n) && !start.kernel.faults.del(n)
    ensures var m := Session(start, true, [ExtraRoute(dest)]);
      m.killSwitchAdded && DEFAULT !in Cleanup(m).kernel.table
  {
    hide TrimSpace, RouteDest;
    var a := AddKillSwitchRoute(start);
    assert a.killSwitchAdded && DEFAULT in a.kernel.table && a.extra == [];
    hide AddKillSwitchRoute, Classify, AddExtraRoute, Recorded, Cleanup;
    RunSingle(a, ExtraRoute(dest));
    ExistingIsRecorded(a, dest, DEFAULT);
    CleanupTable(AddExtraRoute(a, dest));
  }

  lemma ExistingIsRecorded(m: State, dest: string, p: Prefix)
    requires TrimSpace(dest) != "" && m.denote(RouteDest(Classify(TrimSpace(dest)))) == Some(p)
    requires p in m.kernel.table && !m.kernel.faults.add(m.kernel.clock) && m.extra == []
    ensures var n := AddExtraRoute(m, dest);
      && n.kernel.table == m.kernel.table && n.kernel.faults == m.kernel.faults && n.tun == m.tun
      && n.killSwitchAdded == m.killSwitchAdded && n.killSwitch == m.killSwitch
      && Some(p) in Recorded(n)
  {
    hide TrimSpace, RouteDest;
    var n := AddExtraRoute(m, dest);
    assert Routes(n.denote, n.extra)[0] == Some(p);
  }

  lemma FirstBypass(m: State, ip: string, p: Prefix)
    requires Fresh(m) && m.gw != "" && TrimSpace(ip) != "" && '/' !in TrimSpace(ip)
    requires m.denote(Host(TrimSpace(ip))) == Some(p) && p !in m.kernel.table && !m.kernel.faults.add(m.kernel.clock)
    ensures Run(m, [DnsRoutes([ip], true)])
         == m.(dnsBypass := [TrimSpace(ip)], kernel := Add(m.kernel, Some(p), Gateway(m.gw)))
  {
    hide TrimSpace;
    RunSingle(m, DnsRoutes([ip], true));
    assert [ip][1..] == [];
    assert AddDNSServerRoutes(m, [ip], true) == DnsOne(m, ip, true);
  }

  lemma FailedDrop(m: State, ip: string, p: Prefix)
    requires m.dnsBypass == [ip] && m.denote(Host(ip)) == Some(p) && m.kernel.faults.del(m.kernel.clock)
    ensures RemoveDNSBypass(m) == m.(dnsBypass := [], kernel := m.kernel.(clock := m.kernel.clock + 1))
  {
    assert Hosts(m.denote, m.dnsBypass) == [Some(p)];
    DeleteSingle(m.kernel, Some(p));
  }

  // A DNS bypass whose delete fails once is forgotten, and Cleanup leaves it behind.
  lemma ForgottenBypassStays(start: State, ip: string, p: Prefix)
    requires Fresh(start) && start.gw != "" && TrimSpace(ip) != "" && '/' !in TrimSpace(ip)
    requires start.denote(Host(TrimSpace(ip))) == Some(p) && p !in start.kernel.table
    requires var c, f := start.kernel.clock, start.kernel.faults;
      !f.add(c) && f.del(c + 1) && forall n :: n >= c + 2 ==> !f.del(n)
    ensures var m := Session(start, false, [DnsRoutes([ip], true), DropDnsBypass]);
      Recorded(m) == [] && p in Cleanup(m).kernel.table
  {
    hide TrimSpace;
    var ops := [DnsRoutes([ip], true), DropDnsBypass];
    FirstBypass(start, ip, p);
    var a := Run(start, [DnsRoutes([ip], true)]);
    FailedDrop(a, TrimSpace(ip), p);
    var m := RemoveDNSBypass(a);
    RunSingle(start, ops[0]);
    RunSingle(a, DropDnsBypass);
    assert ops[1..] == [DropDnsBypass];
    assert Run(start, ops) == m;
    hide Run, Apply, RemoveDNSBypass;
    assert Recorded(m) == [];
    CleanupTable(m);
  }
}
