/** The books of a macOS session. The bypass, exclude and DNS ledgers hold only what this
    session itself added, each entry once; the split and extra ledgers may name entries of
    before. A delete that fails while the DNS bypasses are dropped leaves an entry behind
    that no ledger names: it has leaked. */
module DarwinLedgers {
  import opened Text
  import opened RouteTable
  import opened RouteText
  import opened DarwinRoutes

  ghost predicate Fresh(m: State) {
    && m.ctrlBypass == [] && m.dnsBypass == [] && m.excludes == [] && m.splits == []
    && m.extra == [] && m.dnsTun == [] && !m.killSwitch && !m.killSwitchAdded
  }

  ghost predicate NoKillSwitch(ops: seq<Op>) { forall op :: op in ops ==> !op.KillSwitch? }

  function First(start: State, kill: bool): State { if kill then AddKillSwitchRoute(start) else start }

  // A session whose kill switch, if any, comes first.
  function Session(start: State, kill: bool, ops: seq<Op>): State {
    Run(First(start, kill), ops)
  }

  type Dests = set<Option<Prefix>>

  // What a ledger denotes.
  ghost function HostSet(denote: Syntax, l: seq<string>): Dests {
    if l == [] then {} else HostSet(denote, l[..|l| - 1]) + {denote(Host(l[|l| - 1]))}
  }

  ghost function RouteSet(denote: Syntax, l: seq<AddedRoute>): Dests {
    if l == [] then {} else RouteSet(denote, l[..|l| - 1]) + {denote(RouteDest(l[|l| - 1]))}
  }

  ghost function SplitSet(denote: Syntax, l: seq<SplitRoute>): Dests {
    if l == [] then {} else SplitSet(denote, l[..|l| - 1]) + {denote(SplitDest(l[|l| - 1]))}
  }

  // No two entries of a ledger denote the same prefix.
  ghost predicate HostsOnce(denote: Syntax, l: seq<string>) {
    l != [] ==> HostsOnce(denote, l[..|l| - 1]) && denote(Host(l[|l| - 1])) !in HostSet(denote, l[..|l| - 1])
  }

  ghost predicate RoutesOnce(denote: Syntax, l: seq<AddedRoute>) {
    l != [] ==> RoutesOnce(denote, l[..|l| - 1]) && denote(RouteDest(l[|l| - 1])) !in RouteSet(denote, l[..|l| - 1])
  }

  ghost predicate Pairwise(l: seq<Option<Prefix>>) { forall i, j :: 0 <= i < j < |l| ==> l[i] != l[j] }

  lemma {:induction false} HostSetIs(denote: Syntax, l: seq<string>)
    ensures forall d :: d in Hosts(denote, l) <==> d in HostSet(denote, l)
    ensures HostsOnce(denote, l) ==> Pairwise(Hosts(denote, l))
  {
    if l != [] {
      var i, d := l[..|l| - 1], denote(Host(l[|l| - 1]));
      HostSetIs(denote, i);
      assert Hosts(denote, l) == Hosts(denote, i) + [d];
    }
  }

  lemma {:induction false} RouteSetIs(denote: Syntax, l: seq<AddedRoute>)
    ensures forall d :: d in Routes(denote, l) <==> d in RouteSet(denote, l)
    ensures RoutesOnce(denote, l) ==> Pairwise(Routes(denote, l))
  {
    if l != [] {
      var i, d := l[..|l| - 1], denote(RouteDest(l[|l| - 1]));
      RouteSetIs(denote, i);
      assert Routes(denote, l) == Routes(denote, i) + [d];
    }
  }

  lemma {:induction false} SplitSetIs(denote: Syntax, l: seq<SplitRoute>)
    ensures forall d :: d in SplitRoutes(denote, l) <==> d in SplitSet(denote, l)
  {
    if l != [] {
      var i, d := l[..|l| - 1], denote(SplitDest(l[|l| - 1]));
      SplitSetIs(denote, i);
      assert SplitRoutes(denote, l) == SplitRoutes(denote, i) + [d];
    }
  }

  lemma HostsGrow(denote: Syntax, l: seq<string>, ip: string)
    ensures HostSet(denote, l + [ip]) == HostSet(denote, l) + {denote(Host(ip))}
    ensures HostsOnce(denote, l + [ip]) <==> HostsOnce(denote, l) && denote(Host(ip)) !in HostSet(denote, l)
  {
    assert (l + [ip])[..|l|] == l;
  }

  lemma RoutesGrow(denote: Syntax, l: seq<AddedRoute>, r: AddedRoute)
    ensures RouteSet(denote, l + [r]) == RouteSet(denote, l) + {denote(RouteDest(r))}
    ensures RoutesOnce(denote, l + [r]) <==> RoutesOnce(denote, l) && denote(RouteDest(r)) !in RouteSet(denote, l)
  {
    assert (l + [r])[..|l|] == l;
  }

  lemma SplitsGrow(denote: Syntax, l: seq<SplitRoute>, s: SplitRoute)
    ensures SplitSet(denote, l + [s]) == SplitSet(denote, l) + {denote(SplitDest(s))}
  {
    assert (l + [s])[..|l|] == l;
  }

  // ---------- Leaks ----------

  // The DNS bypasses whose entries survive being dropped.
  ghost function Forgotten(m: State): Dests {
    set d | d in HostSet(m.denote, m.dnsBypass) && d.Some? && d.value in RemoveDNSBypass(m).kernel.table
  }

  ghost function Leaks(m: State, ops: seq<Op>): Dests
    decreases |ops|
  {
    if ops == [] then {}
    else (if ops[0].DropDnsBypass? then Forgotten(m) else {}) + Leaks(Apply(m, ops[0]), ops[1..])
  }

  // No delete of a drop fails.
  ghost predicate DropWorks(m: State) {
    forall n | m.kernel.clock <= n < m.kernel.clock + |m.dnsBypass| :: !m.kernel.faults.del(n)
  }

  ghost predicate DropsWork(m: State, ops: seq<Op>)
    decreases |ops|
  {
    ops != [] ==> (ops[0].DropDnsBypass? ==> DropWorks(m)) && DropsWork(Apply(m, ops[0]), ops[1..])
  }

  // What the invariant needs to know of a state: the table, what each ledger denotes, and
  // whether the first four denote each prefix once, and the leaks so far.
  datatype View = View(
    table: Table, ctrl: Dests, dns: Dests, excludes: Dests, dnsTun: Dests, split: Dests, extra: Dests,
    once: bool, leaks: Dests, tun: string, gw: string, killSwitch: bool, killSwitchAdded: bool)
  {
    // The ledgers of entries that this session added, and those that may name entries
    // of before.
    ghost predicate Owns(d: Option<Prefix>) { d in ctrl || d in dns || d in excludes || d in dnsTun }

    ghost predicate Shares(d: Option<Prefix>) { d in split || d in extra }

    ghost predicate Bypasses(d: Option<Prefix>) { d in ctrl || d in dns || d in excludes }

    ghost predicate Tunnels(d: Option<Prefix>) { d in split || d in extra || d in dnsTun }
  }

  ghost function ViewOf(m: State, leaks: Dests): View {
    View(m.kernel.table, HostSet(m.denote, m.ctrlBypass), HostSet(m.denote, m.dnsBypass),
         RouteSet(m.denote, m.excludes), RouteSet(m.denote, m.dnsTun),
         SplitSet(m.denote, m.splits), RouteSet(m.denote, m.extra),
         && HostsOnce(m.denote, m.ctrlBypass) && HostsOnce(m.denote, m.dnsBypass)
         && RoutesOnce(m.denote, m.excludes) && RoutesOnce(m.denote, m.dnsTun),
         leaks, m.tun, m.gw, m.killSwitch, m.killSwitchAdded)
  }

  ghost predicate Owns(m: State, d: Option<Prefix>) { ViewOf(m, {}).Owns(d) }

  ghost predicate Shares(m: State, d: Option<Prefix>) { ViewOf(m, {}).Shares(d) }

  ghost predicate Bypasses(m: State, d: Option<Prefix>) { ViewOf(m, {}).Bypasses(d) }

  // ---------- The invariant of every session ----------

  // Where an entry comes from: the table of before, an owned bypass or exclude, a leaked
  // bypass, a record that leads into the tunnel, or the kill switch.
  ghost predicate Explained(v: View, t0: Table, p: Prefix)
    requires p in v.table
  {
    var h := v.table[p];
    || (p in t0 && h == t0[p])
    || ((v.Bypasses(Some(p)) || Some(p) in v.leaks) && (h == Gateway(v.gw) || h == Reject))
    || (v.Tunnels(Some(p)) && Through(h, v.tun))
    || (p == DEFAULT && v.killSwitchAdded && h == Blackhole)
  }

  // Entries of before stay, unless a split route changed their next hop.
  ghost predicate Kept(v: View, t0: Table) {
    forall p :: p in t0 && !(v.killSwitch && p == DEFAULT) ==>
      p in v.table && (v.table[p] == t0[p] || Some(p) in v.split)
  }

  // An owned entry is in the table, is recorded once, and was not there before; so is a
  // leaked one, but for the record.
  ghost predicate OwnedOnce(v: View, t0: Table) {
    && v.once
    && v.ctrl !! v.dns && v.ctrl !! v.excludes && v.ctrl !! v.dnsTun
    && v.dns !! v.excludes && v.dns !! v.dnsTun && v.excludes !! v.dnsTun
    && (forall d :: v.Owns(d) ==> d !in v.leaks)
    && forall d :: v.Owns(d) || d in v.leaks ==>
         && d.Some? && d.value in v.table
         && (d.value in t0 ==> v.killSwitch && d.value == DEFAULT)
  }

  ghost predicate Ledgered(v: View, t0: Table) {
    && (forall p :: p in v.table ==> Explained(v, t0, p))
    && Kept(v, t0) && OwnedOnce(v, t0)
    && (v.killSwitchAdded ==>
          && v.killSwitch && !v.Owns(Some(DEFAULT)) && Some(DEFAULT) !in v.leaks
          && DEFAULT in v.table && v.table[DEFAULT] == Blackhole)
  }

  ghost predicate SameSetting(m: State, n: State) {
    && n.tun == m.tun && n.peer == m.peer && n.gw == m.gw && n.denote == m.denote
    && n.killSwitch == m.killSwitch && n.killSwitchAdded == m.killSwitchAdded
    && n.kernel.faults == m.kernel.faults
  }

  // The ledgers whose entries this session itself added.
  datatype Owner = ToControl | ToDns | ToExcludes | ToDnsTun

  ghost function LedgerOf(v: View, o: Owner): Dests {
    match o
    case ToControl => v.ctrl
    case ToDns => v.dns
    case ToExcludes => v.excludes
    case ToDnsTun => v.dnsTun
  }

  // A new entry enters the table together with its record.
  ghost function WithOwned(v: View, o: Owner, p: Prefix, hop: NextHop): View {
    var w := v.(table := v.table[p := hop]);
    match o
    case ToControl => w.(ctrl := v.ctrl + {Some(p)})
    case ToDns => w.(dns := v.dns + {Some(p)})
    case ToExcludes => w.(excludes := v.excludes + {Some(p)})
    case ToDnsTun => w.(dnsTun := v.dnsTun + {Some(p)})
  }

  lemma WithOwnedKeeps(v: View, t0: Table, o: Owner, p: Prefix, hop: NextHop)
    requires Ledgered(v, t0) && p !in v.table
    requires if o == ToDnsTun then Through(hop, v.tun) else hop == Gateway(v.gw) || hop == Reject
    ensures Some(p) !in LedgerOf(v, o)
    ensures Ledgered(WithOwned(v, o, p, hop), t0)
  {
    var w := WithOwned(v, o, p, hop);
    assert !v.Owns(Some(p));
    forall q | q in w.table ensures Explained(w, t0, q) {
      if q in v.table { assert Explained(v, t0, q); }
    }
    assert forall d :: w.Owns(d) ==> d == Some(p) || v.Owns(d);
  }

  // An extra route is recorded with or without a new entry.
  lemma WithExtraKeeps(v: View, t0: Table, d: Option<Prefix>, table: Table, hop: NextHop)
    requires Ledgered(v, t0) && Through(hop, v.tun)
    requires table == v.table ||
      (d.Some? && d.value !in v.table && table == v.table[d.value := hop])
    ensures Ledgered(v.(table := table, extra := v.extra + {d}), t0)
  {
    var w := v.(table := table, extra := v.extra + {d});
    forall q | q in w.table ensures Explained(w, t0, q) {
      if q in v.table { assert Explained(v, t0, q); }
    }
    assert forall x :: w.Owns(x) <==> v.Owns(x);
  }

  // A split route may take over an entry, but never the default one.
  lemma WithSplitKeeps(v: View, t0: Table, p: Prefix, hop: NextHop)
    requires Ledgered(v, t0) && p != DEFAULT && Through(hop, v.tun)
    ensures Ledgered(v.(table := v.table[p := hop], split := v.split + {Some(p)}), t0)
  {
    var w := v.(table := v.table[p := hop], split := v.split + {Some(p)});
    forall q | q in w.table ensures Explained(w, t0, q) {
      if q in v.table { assert Explained(v, t0, q); }
    }
    assert forall x :: w.Owns(x) <==> v.Owns(x);
  }

  lemma BypassOneKeeps(m: State, t0: Table, leaks: Dests, ip: string)
    requires Ledgered(ViewOf(m, leaks), t0)
    ensures Ledgered(ViewOf(BypassOne(m, ip), leaks), t0) && SameSetting(m, BypassOne(m, ip))
  {
    hide Ledgered, HostSet, RouteSet, SplitSet, HostsOnce, RoutesOnce;
    HostsGrow(m.denote, m.ctrlBypass, ip);
    var d := m.denote(Host(ip));
    if AddOutcome(m.kernel, d) == Done {
      WithOwnedKeeps(ViewOf(m, leaks), t0, ToControl, d.value, Gateway(m.gw));
    }
  }

  lemma {:induction false} BypassAllKeeps(m: State, t0: Table, leaks: Dests, ips: seq<Option<string>>)
    requires Ledgered(ViewOf(m, leaks), t0)
    ensures Ledgered(ViewOf(BypassAll(m, ips), leaks), t0) && SameSetting(m, BypassAll(m, ips))
    decreases |ips|
  {
    if ips != [] {
      if ips[0].Some? {
        BypassOneKeeps(m, t0, leaks, ips[0].value);
        BypassAllKeeps(BypassOne(m, ips[0].value), t0, leaks, ips[1..]);
      } else {
        BypassAllKeeps(m, t0, leaks, ips[1..]);
      }
    }
  }

  lemma ExcludeViaKeeps(m: State, t0: Table, leaks: Dests, r: AddedRoute, hop: NextHop)
    requires Ledgered(ViewOf(m, leaks), t0) && (hop == Gateway(m.gw) || hop == Reject)
    ensures Ledgered(ViewOf(ExcludeVia(m, r, hop), leaks), t0) && SameSetting(m, ExcludeVia(m, r, hop))
  {
    hide Ledgered, HostSet, RouteSet, SplitSet, HostsOnce, RoutesOnce;
    RoutesGrow(m.denote, m.excludes, r);
    var d := m.denote(RouteDest(r));
    if AddOutcome(m.kernel, d) == Done {
      WithOwnedKeeps(ViewOf(m, leaks), t0, ToExcludes, d.value, hop);
    }
  }

  lemma ExcludeKeeps(m: State, t0: Table, leaks: Dests, dest: string)
    requires Ledgered(ViewOf(m, leaks), t0)
    ensures Ledgered(ViewOf(AddExclude(m, dest), leaks), t0) && SameSetting(m, AddExclude(m, dest))
  {
    hide Ledgered, ViewOf;
    var r := Classify(TrimSpace(dest));
    if m.gw != "" {
      ExcludeViaKeeps(m, t0, leaks, r, Gateway(m.gw));
      ExcludeViaKeeps(ExcludeVia(m, r, Gateway(m.gw)), t0, leaks, r, Reject);
    } else {
      ExcludeViaKeeps(m, t0, leaks, r, Reject);
    }
  }

  lemma DnsOneKeeps(m: State, t0: Table, leaks: Dests, ip: string, bypass: bool)
    requires Ledgered(ViewOf(m, leaks), t0)
    ensures Ledgered(ViewOf(DnsOne(m, ip, bypass), leaks), t0) && SameSetting(m, DnsOne(m, ip, bypass))
  {
    hide Ledgered, HostSet, RouteSet, SplitSet, HostsOnce, RoutesOnce;
    var n, text := DnsOne(m, ip, bypass), TrimSpace(ip);
    var d := m.denote(Host(text));
    if n != m && AddOutcome(m.kernel, d) == Done {
      if bypass {
        HostsGrow(m.denote, m.dnsBypass, text);
        WithOwnedKeeps(ViewOf(m, leaks), t0, ToDns, d.value, Gateway(m.gw));
      } else {
        RoutesGrow(m.denote, m.dnsTun, AddedRoute(true, text));
        WithOwnedKeeps(ViewOf(m, leaks), t0, ToDnsTun, d.value, Device(m.tun));
      }
    }
  }

  lemma {:induction false} DnsKeeps(m: State, t0: Table, leaks: Dests, ips: seq<string>, bypass: bool)
    requires Ledgered(ViewOf(m, leaks), t0)
    ensures Ledgered(ViewOf(AddDNSServerRoutes(m, ips, bypass), leaks), t0)
    ensures SameSetting(m, AddDNSServerRoutes(m, ips, bypass))
    decreases |ips|
  {
    if ips != [] {
      DnsOneKeeps(m, t0, leaks, ips[0], bypass);
      DnsKeeps(DnsOne(m, ips[0], bypass), t0, leaks, ips[1..], bypass);
    }
  }

  lemma ExtraKeeps(m: State, t0: Table, leaks: Dests, dest: string)
    requires Ledgered(ViewOf(m, leaks), t0)
    ensures Ledgered(ViewOf(AddExtraRoute(m, dest), leaks), t0) && SameSetting(m, AddExtraRoute(m, dest))
  {
    hide Ledgered, HostSet, RouteSet, SplitSet, HostsOnce, RoutesOnce;
    RoutesGrow(m.denote, m.extra, Classify(TrimSpace(dest)));
    var n, d := AddExtraRoute(m, dest), m.denote(RouteDest(Classify(TrimSpace(dest))));
    if n.extra == m.extra {
      assert ViewOf(n, leaks) == ViewOf(m, leaks);
    } else {
      var direct := AddOutcome(m.kernel, d) != Failed;
      WithExtraKeeps(ViewOf(m, leaks), t0, d, n.kernel.table, if direct then Device(m.tun) else Via(m.peer, m.tun));
    }
  }

  // ---------- Split-default routes ----------

  lemma VariantKeeps(m: State, t0: Table, leaks: Dests, entry: SplitRoute, hop: NextHop)
    requires Ledgered(ViewOf(m, leaks), t0) && Through(hop, m.tun)
    requires m.denote(SplitDest(entry)) in {Some(LOWER_HALF), Some(UPPER_HALF)}
    ensures var n := TryVariant(m, entry, hop).0; Ledgered(ViewOf(n, leaks), t0) && SameSetting(m, n)
  {
    hide Ledgered, HostSet, RouteSet, SplitSet, HostsOnce, RoutesOnce;
    SplitsGrow(m.denote, m.splits, entry);
    var v, p := TryVariant(m, entry, hop), m.denote(SplitDest(entry)).value;
    if v.1 {
      WithSplitKeeps(ViewOf(m, leaks), t0, p, hop);
    } else {
      assert ViewOf(v.0, leaks) == ViewOf(m, leaks);
    }
  }

  predicate HalfText(dest: string) { dest == "0.0.0.0" || dest == "128.0.0.0" }

  function Half(dest: string): Prefix { if dest == "0.0.0.0" then LOWER_HALF else UPPER_HALF }

  lemma MeansWhatItSpells(denote: Syntax, addr: string, mask: string, text: string)
    requires ReadMasked(addr, mask).Some? && ReadCidr(text).Some?
    ensures denote(Masked(addr, mask)) == ReadMasked(addr, mask) && denote(Net(text)) == ReadCidr(text)
  {
    hide ReadMasked, ReadCidr;
  }

  // Both forms that addVariant tries spell the half it is asked for.
  lemma VariantForms(denote: Syntax, dest: string)
    requires HalfText(dest)
    ensures denote(SplitDest(SplitRoute(dest, "128.0.0.0", false))) == Some(Half(dest))
    ensures denote(SplitDest(SplitRoute(dest + "/1", "", true))) == Some(Half(dest))
  {
    hide ReadQuad, ReadMasked, ReadCidr, Standard;
    HalfQuads();
    HalvesRead();
    FormsAgree(dest);
    MeansWhatItSpells(denote, dest, "128.0.0.0", dest + "/1");
  }

  lemma AddVariantKeeps(m: State, t0: Table, leaks: Dests, dest: string)
    requires Ledgered(ViewOf(m, leaks), t0) && HalfText(dest)
    ensures var n := AddVariant(m, dest, "128.0.0.0").0; Ledgered(ViewOf(n, leaks), t0) && SameSetting(m, n)
  {
    hide Ledgered, TryVariant, ViewOf, SplitDest;
    VariantForms(m.denote, dest);
    var masked, cidr := SplitRoute(dest, "128.0.0.0", false), SplitRoute(dest + "/1", "", true);
    var v1 := TryVariant(m, masked, Device(m.tun)).0;
    VariantKeeps(m, t0, leaks, masked, Device(m.tun));
    var v2 := TryVariant(v1, cidr, Device(m.tun)).0;
    VariantKeeps(v1, t0, leaks, cidr, Device(m.tun));
    var v3 := TryVariant(v2, masked, Via(m.peer, m.tun)).0;
    VariantKeeps(v2, t0, leaks, masked, Via(m.peer, m.tun));
    VariantKeeps(v3, t0, leaks, cidr, Via(m.peer, m.tun));
  }

  // How many of the commands lo, ..., hi - 1 fail.
  function Failures(f: nat -> bool, lo: nat, hi: nat): nat
    decreases hi - lo
  {
    if hi <= lo then 0 else (if f(lo) then 1 else 0) + Failures(f, lo + 1, hi)
  }

  lemma {:induction false} FailuresAdd(f: nat -> bool, lo: nat, mid: nat, hi: nat)
    requires lo <= mid <= hi
    ensures Failures(f, lo, hi) == Failures(f, lo, mid) + Failures(f, mid, hi)
    decreases mid - lo
  {
    if lo < mid {
      FailuresAdd(f, lo + 1, mid, hi);
    }
  }

  // Success means one new record for the half of the address space asked for, which now
  // leaves through the tunnel; failure means no record and an untouched table.
  ghost predicate VariantOutcome(m: State, n: State, ok: bool, half: Prefix) {
    && n == m.(kernel := n.kernel, splits := n.splits)
    && n.kernel.clock >= m.kernel.clock && n.kernel.faults == m.kernel.faults
    && (ok ==>
          && (exists s :: n.splits == m.splits + [s] && m.denote(SplitDest(s)) == Some(half))
          && exists hop :: Through(hop, m.tun) && n.kernel.table == m.kernel.table[half := hop])
    && (!ok ==> n.splits == m.splits && n.kernel.table == m.kernel.table)
  }

  lemma TryVariantOutcome(m: State, entry: SplitRoute, hop: NextHop, half: Prefix)
    requires Through(hop, m.tun) && m.denote(SplitDest(entry)) == Some(half)
    ensures var v := TryVariant(m, entry, hop);
      && VariantOutcome(m, v.0, v.1, half)
      && (!v.1 ==> Failures(m.kernel.faults.add, m.kernel.clock, v.0.kernel.clock) >= 1)
  {
    var v, c, f := TryVariant(m, entry, hop), m.kernel.clock, m.kernel.faults.add;
    if v.1 {
      assert v.0.splits == m.splits + [entry];
      assert v.0.kernel.table == m.kernel.table[half := hop];
    } else {
      assert f(c) || f(c + 1);
      assert Failures(f, c + 1, c + 1) == 0 && Failures(f, c + 2, c + 2) == 0;
      assert Failures(f, c + 1, c + 2) == if f(c + 1) then 1 else 0;
    }
  }

  // addVariant, over all outcomes of its commands. It gives up only after every variant
  // it has (two, or four with a peer address) met a failing command.
  lemma AddVariantOutcome(m: State, dest: string)
    requires HalfText(dest)
    ensures var v := AddVariant(m, dest, "128.0.0.0");
      && VariantOutcome(m, v.0, v.1, Half(dest))
      && (!v.1 ==> Failures(m.kernel.faults.add, m.kernel.clock, v.0.kernel.clock)
                   >= if m.peer == "" then 2 else 4)
  {
    VariantForms(m.denote, dest);
    var masked, cidr := SplitRoute(dest, "128.0.0.0", false), SplitRoute(dest + "/1", "", true);
    var half, f := Half(dest), m.kernel.faults.add;
    TryVariantOutcome(m, masked, Device(m.tun), half);
    var v1 := TryVariant(m, masked, Device(m.tun));
    if !v1.1 {
      TryVariantOutcome(v1.0, cidr, Device(m.tun), half);
      var v2 := TryVariant(v1.0, cidr, Device(m.tun));
      FailuresAdd(f, m.kernel.clock, v1.0.kernel.clock, v2.0.kernel.clock);
      if !v2.1 && m.peer != "" {
        TryVariantOutcome(v2.0, masked, Via(m.peer, m.tun), half);
        var v3 := TryVariant(v2.0, masked, Via(m.peer, m.tun));
        FailuresAdd(f, m.kernel.clock, v2.0.kernel.clock, v3.0.kernel.clock);
        if !v3.1 {
          TryVariantOutcome(v3.0, cidr, Via(m.peer, m.tun), half);
          var v4 := TryVariant(v3.0, cidr, Via(m.peer, m.tun));
          FailuresAdd(f, m.kernel.clock, v3.0.kernel.clock, v4.0.kernel.clock);
        }
      }
    }
  }

  // ---------- Dropping the DNS bypasses ----------

  function Without(t: Table, dests: Dests): Table {
    map p | p in t && Some(p) !in dests :: t[p]
  }

  lemma RemovalView(m: State, leaks: Dests)
    ensures var n, forgotten := RemoveDNSBypass(m), Forgotten(m);
      && SameSetting(m, n)
      && (ViewOf(m, leaks).once ==> ViewOf(n, leaks).once)
      && ViewOf(n, leaks + forgotten)
         == ViewOf(m, leaks).(table := Without(m.kernel.table, ViewOf(m, leaks).dns - forgotten), dns := {},
                              leaks := leaks + forgotten, once := ViewOf(n, leaks).once)
  {
    hide RouteSet, SplitSet, RoutesOnce;
    var dns := Hosts(m.denote, m.dnsBypass);
    DeleteAllEffect(m.kernel, dns);
    HostSetIs(m.denote, m.dnsBypass);
    assert DeleteAll(m.kernel, dns).table == Without(m.kernel.table, ViewOf(m, leaks).dns - Forgotten(m));
  }

  // Owned entries are recorded once, so no other owned entry goes with a DNS bypass; and
  // a DNS bypass that does not go has leaked.
  lemma DropKeeps(m: State, t0: Table, leaks: Dests)
    requires Ledgered(ViewOf(m, leaks), t0)
    ensures Ledgered(ViewOf(RemoveDNSBypass(m), leaks + Forgotten(m)), t0) && SameSetting(m, RemoveDNSBypass(m))
    ensures forall d :: d in ViewOf(m, leaks).ctrl + ViewOf(m, leaks).excludes ==>
      d.Some? && d.value in RemoveDNSBypass(m).kernel.table
  {
    RemovalView(m, leaks);
    var v, forgotten := ViewOf(m, leaks), Forgotten(m);
    DropView(v, t0, forgotten);
    assert ViewOf(RemoveDNSBypass(m), leaks + forgotten).table == RemoveDNSBypass(m).kernel.table;
  }

  lemma DropView(v: View, t0: Table, forgotten: Dests)
    requires Ledgered(v, t0) && forgotten <= v.dns
    ensures Ledgered(v.(table := Without(v.table, v.dns - forgotten), dns := {}, leaks := v.leaks + forgotten), t0)
    ensures forall d :: d in v.ctrl + v.excludes ==> d.Some? && d.value in Without(v.table, v.dns - forgotten)
  {
    var w := v.(table := Without(v.table, v.dns - forgotten), dns := {}, leaks := v.leaks + forgotten);
    forall p | p in w.table ensures Explained(w, t0, p) {
      assert Explained(v, t0, p);
    }
    assert forall d :: d in v.dns ==> v.Owns(d);
    assert forall d :: w.Owns(d) || d in w.leaks ==> (v.Owns(d) || d in v.leaks) && d !in v.dns - forgotten;
    assert forall d :: d in v.ctrl + v.excludes ==> w.Owns(d);
  }

  lemma {:induction false} FailedDeleteStays(k: Kernel, dests: seq<Option<Prefix>>, n: nat, p: Prefix)
    requires k.clock <= n < k.clock + |dests| && k.faults.del(n) && p in k.table
    requires dests[n - k.clock] == Some(p) && Pairwise(dests)
    ensures p in DeleteAll(k, dests).table
    decreases |dests|
  {
    var k1 := Delete(k, dests[0]);
    if n > k.clock {
      FailedDeleteStays(k1, dests[1..], n, p);
    } else {
      assert Some(p) !in dests[1..];
      DeleteAllEffect(k1, dests[1..]);
    }
  }

  lemma DnsEntries(m: State, t0: Table, leaks: Dests)
    requires Ledgered(ViewOf(m, leaks), t0)
    ensures var dns := Hosts(m.denote, m.dnsBypass);
      && Pairwise(dns)
      && (forall d :: d in dns <==> d in HostSet(m.denote, m.dnsBypass))
      && (forall d :: d in dns ==> d.Some? && d.value in m.kernel.table)
  {
    hide RouteSet, SplitSet, RoutesOnce;
    HostSetIs(m.denote, m.dnsBypass);
    assert forall d :: d in HostSet(m.denote, m.dnsBypass) ==> ViewOf(m, leaks).Owns(d);
  }

  // Entries that are deleted once each are all gone exactly when no delete failed.
  lemma AllGoneIff(k: Kernel, dests: seq<Option<Prefix>>)
    requires Pairwise(dests) && forall d :: d in dests ==> d.Some? && d.value in k.table
    ensures (forall d :: d in dests ==> d.value !in DeleteAll(k, dests).table)
      <==> forall n | k.clock <= n < k.clock + |dests| :: !k.faults.del(n)
  {
    DeleteAllEffect(k, dests);
    hide DeleteAll, Pairwise;
    forall n | k.clock <= n < k.clock + |dests| && k.faults.del(n)
      ensures exists d :: d in dests && d.value in DeleteAll(k, dests).table
    {
      var d := dests[n - k.clock];
      assert d in dests;
      FailedDeleteStays(k, dests, n, d.value);
    }
  }

  // A drop forgets an entry exactly when one of its deletes fails.
  lemma DropForgetsNothingIff(m: State, t0: Table, leaks: Dests)
    requires Ledgered(ViewOf(m, leaks), t0)
    ensures Forgotten(m) == {} <==> DropWorks(m)
  {
    DnsEntries(m, t0, leaks);
    hide HostSet, ViewOf, Ledgered, DeleteAll;
    var dns := Hosts(m.denote, m.dnsBypass);
    AllGoneIff(m.kernel, dns);
    assert RemoveDNSBypass(m).kernel == DeleteAll(m.kernel, dns);
    assert forall d :: d in Forgotten(m) <==> d in dns && d.value in DeleteAll(m.kernel, dns).table;
    if Forgotten(m) != {} {
      var d :| d in Forgotten(m);
    }
  }

  // ---------- Sessions ----------

  lemma ApplyKeeps(m: State, t0: Table, leaks: Dests, op: Op)
    requires Ledgered(ViewOf(m, leaks), t0) && !op.KillSwitch?
    ensures Ledgered(ViewOf(Apply(m, op), leaks + if op.DropDnsBypass? then Forgotten(m) else {}), t0)
    ensures SameSetting(m, Apply(m, op))
  {
    hide Ledgered, ViewOf, Forgotten;
    assert leaks + {} == leaks;
    match op
    case BypassEndpoint(host, ips) => BypassAllKeeps(m, t0, leaks, ips);
    case SplitDefault =>
      AddVariantKeeps(m, t0, leaks, "0.0.0.0");
      AddVariantKeeps(AddVariant(m, "0.0.0.0", "128.0.0.0").0, t0, leaks, "128.0.0.0");
    case Exclude(dest) => ExcludeKeeps(m, t0, leaks, dest);
    case ExtraRoute(dest) => ExtraKeeps(m, t0, leaks, dest);
    case DnsRoutes(servers, bypass) => DnsKeeps(m, t0, leaks, servers, bypass);
    case DropDnsBypass => DropKeeps(m, t0, leaks);
  }

  lemma {:induction false} RunKeeps(m: State, t0: Table, leaks: Dests, ops: seq<Op>)
    requires Ledgered(ViewOf(m, leaks), t0) && NoKillSwitch(ops)
    ensures Ledgered(ViewOf(Run(m, ops), leaks + Leaks(m, ops)), t0) && SameSetting(m, Run(m, ops))
    ensures Leaks(m, ops) == {} <==> DropsWork(m, ops)
    decreases |ops|
  {
    hide Apply, DropWorks, Forgotten, Ledgered, ViewOf;
    if ops == [] {
      assert leaks + {} == leaks;
    } else {
      assert ops[0] in ops;
      var now := if ops[0].DropDnsBypass? then Forgotten(m) else {};
      ApplyKeeps(m, t0, leaks, ops[0]);
      DropForgetsNothingIff(m, t0, leaks);
      RunKeeps(Apply(m, ops[0]), t0, leaks + now, ops[1..]);
      assert leaks + now + Leaks(Apply(m, ops[0]), ops[1..]) == leaks + Leaks(m, ops);
    }
  }

  lemma StartLedgered(start: State, kill: bool)
    requires Fresh(start)
    ensures var m := First(start, kill);
      && Ledgered(ViewOf(m, {}), start.kernel.table)
      && m.tun == start.tun && m.gw == start.gw && m.denote == start.denote
  {
    var m := First(start, kill);
    forall p | p in m.kernel.table ensures Explained(ViewOf(m, {}), start.kernel.table, p) {}
  }

  // Every session keeps its ledgers in step with the table, whatever fails, but for what
  // leaks; and nothing leaks exactly when no delete of a drop fails.
  lemma SessionLedgered(start: State, kill: bool, ops: seq<Op>)
    requires Fresh(start) && NoKillSwitch(ops)
    ensures var m, leaks := Session(start, kill, ops), Leaks(First(start, kill), ops);
      && Ledgered(ViewOf(m, leaks), start.kernel.table)
      && (leaks == {} <==> DropsWork(First(start, kill), ops))
      && m.tun == start.tun && m.gw == start.gw && m.denote == start.denote
      && (!kill ==> SameSetting(start, m))
  {
    var m, t0 := First(start, kill), start.kernel.table;
    StartLedgered(start, kill);
    hide Ledgered, ViewOf, AddKillSwitchRoute;
    RunKeeps(m, t0, {}, ops);
    assert {} + Leaks(m, ops) == Leaks(m, ops);
  }

  lemma RecordedIsBoth(m: State)
    ensures forall d :: d in Recorded(m) <==> Owns(m, d) || Shares(m, d)
  {
    hide HostSet, RouteSet, SplitSet, HostsOnce, RoutesOnce;
    HostSetIs(m.denote, m.ctrlBypass);
    HostSetIs(m.denote, m.dnsBypass);
    RouteSetIs(m.denote, m.excludes);
    RouteSetIs(m.denote, m.extra);
    RouteSetIs(m.denote, m.dnsTun);
    SplitSetIs(m.denote, m.splits);
  }
}
