/** darwinRouteManager: a route is entered in a ledger when the kernel took it, with two
    exceptions. A split-default route counts as taken when an existing entry was changed,
    and an extra route is recorded even when its prefix already had an entry.

    Each operation is a function of the manager's state. DarwinManager holds the manager
    itself, DarwinGuarantees what the operations guarantee. Interface scope (-ifscope) is
    ignored: a scoped route is an ordinary entry. */
module DarwinRoutes {
  import opened Text
  import opened RouteTable
  import opened RouteText

  // The forms in which a destination is passed to route(8).
  datatype Dest = Host(text: string) | Net(text: string) | Masked(addr: string, mask: string)

  // Networks written with a netmask or in CIDR notation mean what they spell. What else
  // route(8) accepts, and how it reads hosts, is open.
  ghost predicate Standard(denote: Dest -> Option<Prefix>) {
    && (forall addr, mask | ReadMasked(addr, mask).Some? :: denote(Masked(addr, mask)) == ReadMasked(addr, mask))
    && (forall text | ReadCidr(text).Some? :: denote(Net(text)) == ReadCidr(text))
  }

  function Spelled(d: Dest): Option<Prefix> {
    match d
    case Host(text) => if ReadQuad(text).Some? then Some(Prefix(ReadQuad(text).value, 32)) else None
    case Net(text) => ReadCidr(text)
    case Masked(addr, mask) => ReadMasked(addr, mask)
  }

  type Syntax = f: Dest -> Option<Prefix> | Standard(f) witness Spelled

  datatype AddedRoute = AddedRoute(isHost: bool, dest: string)

  datatype SplitRoute = SplitRoute(dest: string, mask: string, usedCIDR: bool)

  datatype State = State(
    tun: string, peer: string, gw: string, denote: Syntax,
    ctrlBypass: seq<string>, dnsBypass: seq<string>,
    excludes: seq<AddedRoute>, splits: seq<SplitRoute>, extra: seq<AddedRoute>, dnsTun: seq<AddedRoute>,
    killSwitch: bool, killSwitchAdded: bool,
    kernel: Kernel)

  // The argument with which an entry was added, and with which Cleanup deletes it.
  function RouteDest(r: AddedRoute): Dest { if r.isHost then Host(r.dest) else Net(r.dest) }

  function SplitDest(s: SplitRoute): Dest { if s.usedCIDR then Net(s.dest) else Masked(s.dest, s.mask) }

  function Hosts(denote: Syntax, l: seq<string>): (r: seq<Option<Prefix>>)
    ensures |r| == |l| && forall i :: 0 <= i < |l| ==> r[i] == denote(Host(l[i]))
  {
    seq(|l|, i requires 0 <= i < |l| => denote(Host(l[i])))
  }

  function Routes(denote: Syntax, l: seq<AddedRoute>): (r: seq<Option<Prefix>>)
    ensures |r| == |l| && forall i :: 0 <= i < |l| ==> r[i] == denote(RouteDest(l[i]))
  {
    seq(|l|, i requires 0 <= i < |l| => denote(RouteDest(l[i])))
  }

  function SplitRoutes(denote: Syntax, l: seq<SplitRoute>): (r: seq<Option<Prefix>>)
    ensures |r| == |l| && forall i :: 0 <= i < |l| ==> r[i] == denote(SplitDest(l[i]))
  {
    seq(|l|, i requires 0 <= i < |l| => denote(SplitDest(l[i])))
  }

  // ---------- The operations ----------

  function BypassOne(m: State, ip: string): State {
    var d := m.denote(Host(ip));
    m.(kernel := Add(m.kernel, d, Gateway(m.gw)),
       ctrlBypass := if AddOutcome(m.kernel, d) == Done then m.ctrlBypass + [ip] else m.ctrlBypass)
  }

  function BypassAll(m: State, ips: seq<Option<string>>): State
    decreases |ips|
  {
    if ips == [] then m
    else BypassAll(if ips[0].Some? then BypassOne(m, ips[0].value) else m, ips[1..])
  }

  function AddBypassEndpoint(m: State, host: string, ips: seq<Option<string>>): State {
    if m.gw == "" || host == "" then m else BypassAll(m, ips)
  }

  // One form of a split-default route: added, or else changed where it exists.
  function TryVariant(m: State, entry: SplitRoute, hop: NextHop): (State, bool) {
    var d := m.denote(SplitDest(entry));
    var k := Add(m.kernel, d, hop);
    match AddOutcome(m.kernel, d)
    case Done => (m.(kernel := k, splits := m.splits + [entry]), true)
    case Failed => (m.(kernel := k), false)
    case Exists =>
      if ChangeOutcome(k, d) == Done then
        (m.(kernel := Change(k, d, hop), splits := m.splits + [entry]), true)
      else (m.(kernel := Change(k, d, hop)), false)
  }

  function AddVariant(m: State, dest: string, mask: string): (State, bool) {
    var cidr := dest + "/1";
    var v1 := TryVariant(m, SplitRoute(dest, mask, false), Device(m.tun));
    if v1.1 then v1 else
      var v2 := TryVariant(v1.0, SplitRoute(cidr, "", true), Device(m.tun));
      if v2.1 || m.peer == "" then v2 else
        var v3 := TryVariant(v2.0, SplitRoute(dest, mask, false), Via(m.peer, m.tun));
        if v3.1 then v3 else TryVariant(v3.0, SplitRoute(cidr, "", true), Via(m.peer, m.tun))
  }

  function AddSplitDefault(m: State): State {
    AddVariant(AddVariant(m, "0.0.0.0", "128.0.0.0").0, "128.0.0.0", "128.0.0.0").0
  }

  function Classify(dest: string): AddedRoute { AddedRoute('/' !in dest, dest) }

  // Tries an exclude with one next hop and records it if it is taken.
  function ExcludeVia(m: State, r: AddedRoute, hop: NextHop): State {
    var d := m.denote(RouteDest(r));
    m.(kernel := Add(m.kernel, d, hop),
       excludes := if AddOutcome(m.kernel, d) == Done then m.excludes + [r] else m.excludes)
  }

  function AddExclude(m: State, dest: string): State {
    var d := TrimSpace(dest);
    var r := Classify(d);
    if d == "" then m
    else if m.gw != "" then
      var n := ExcludeVia(m, r, Gateway(m.gw));
      if AddOutcome(m.kernel, m.denote(RouteDest(r))) == Failed then ExcludeVia(n, r, Reject) else n
    else ExcludeVia(m, r, Reject)
  }

  function AddExtraRoute(m: State, dest: string): State {
    var text := TrimSpace(dest);
    var r := Classify(text);
    var d := m.denote(RouteDest(r));
    var k := Add(m.kernel, d, Device(m.tun));
    if text == "" then m
    else if AddOutcome(m.kernel, d) != Failed then m.(kernel := k, extra := m.extra + [r])
    else if m.peer != "" && AddOutcome(k, d) != Failed then
      m.(kernel := Add(k, d, Via(m.peer, m.tun)), extra := m.extra + [r])
    else if m.peer != "" then m.(kernel := Add(k, d, Via(m.peer, m.tun)))
    else m.(kernel := k)
  }

  function DnsOne(m: State, ip: string, bypass: bool): State {
    var text := TrimSpace(ip);
    var d := m.denote(Host(text));
    var taken := AddOutcome(m.kernel, d) == Done;
    if text == "" || '/' in text || (bypass && m.gw == "") then m
    else if bypass then
      m.(kernel := Add(m.kernel, d, Gateway(m.gw)),
         dnsBypass := if taken then m.dnsBypass + [text] else m.dnsBypass)
    else
      m.(kernel := Add(m.kernel, d, Device(m.tun)),
         dnsTun := if taken then m.dnsTun + [AddedRoute(true, text)] else m.dnsTun)
  }

  function AddDNSServerRoutes(m: State, ips: seq<string>, bypass: bool): State
    decreases |ips|
  {
    if ips == [] then m else AddDNSServerRoutes(DnsOne(m, ips[0], bypass), ips[1..], bypass)
  }

  // Deletes the DNS bypasses and forgets them, whether or not the deletes worked.
  function RemoveDNSBypass(m: State): State {
    m.(kernel := DeleteAll(m.kernel, Hosts(m.denote, m.dnsBypass)), dnsBypass := [])
  }

  function AddKillSwitchRoute(m: State): State {
    var k := if m.gw != "" then Delete(m.kernel, Some(DEFAULT)) else m.kernel;
    m.(killSwitch := true,
       killSwitchAdded := m.killSwitchAdded || AddOutcome(k, Some(DEFAULT)) == Done,
       kernel := Add(k, Some(DEFAULT), Blackhole))
  }

  // What Cleanup deletes, in the order in which it does.
  function BeforeDns(m: State): seq<Option<Prefix>> {
    SplitRoutes(m.denote, m.splits) + Routes(m.denote, m.excludes) + Hosts(m.denote, m.ctrlBypass)
  }

  function AfterDns(m: State): seq<Option<Prefix>> {
    Routes(m.denote, m.extra) + Routes(m.denote, m.dnsTun)
  }

  function Recorded(m: State): seq<Option<Prefix>> {
    BeforeDns(m) + Hosts(m.denote, m.dnsBypass) + AfterDns(m)
  }

  function Cleanup(m: State): State {
    var k := LinkDown(DeleteAll(m.kernel, Recorded(m)), m.tun);
    m.(kernel :=
      if !m.killSwitchAdded || m.killSwitch then k
      else
        var k1 := Delete(k, Some(DEFAULT));
        if m.gw != "" then Add(k1, Some(DEFAULT), Gateway(m.gw)) else k1)
  }

  // ---------- Sessions ----------

  datatype Op =
    | BypassEndpoint(host: string, ips: seq<Option<string>>)
    | SplitDefault
    | KillSwitch
    | Exclude(dest: string)
    | ExtraRoute(dest: string)
    | DnsRoutes(servers: seq<string>, bypass: bool)
    | DropDnsBypass

  function Apply(m: State, op: Op): State {
    match op
    case BypassEndpoint(host, ips) => AddBypassEndpoint(m, host, ips)
    case SplitDefault => AddSplitDefault(m)
    case KillSwitch => AddKillSwitchRoute(m)
    case Exclude(dest) => AddExclude(m, dest)
    case ExtraRoute(dest) => AddExtraRoute(m, dest)
    case DnsRoutes(servers, bypass) => AddDNSServerRoutes(m, servers, bypass)
    case DropDnsBypass => RemoveDNSBypass(m)
  }

  function Run(m: State, ops: seq<Op>): State
    decreases |ops|
  {
    if ops == [] then m else Run(Apply(m, ops[0]), ops[1..])
  }

  // ---------- What an operation leaves alone ----------

  lemma {:induction false} BypassFrame(m: State, ips: seq<Option<string>>)
    ensures var n := BypassAll(m, ips);
      n == m.(ctrlBypass := n.ctrlBypass, kernel := n.kernel) && n.kernel.faults == m.kernel.faults
    decreases |ips|
  {
    if ips != [] {
      BypassFrame(if ips[0].Some? then BypassOne(m, ips[0].value) else m, ips[1..]);
    }
  }

  lemma {:induction false} DnsFrame(m: State, ips: seq<string>, bypass: bool)
    ensures var n := AddDNSServerRoutes(m, ips, bypass);
      && n == m.(dnsBypass := n.dnsBypass, dnsTun := n.dnsTun, kernel := n.kernel)
      && n.kernel.faults == m.kernel.faults
    decreases |ips|
  {
    hide TrimSpace;
    if ips != [] {
      DnsFrame(DnsOne(m, ips[0], bypass), ips[1..], bypass);
    }
  }
}
