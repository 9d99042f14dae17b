/** linuxRouteManager: every requested route is entered in a ledger, whether or not the
    kernel took it, and Cleanup deletes what the ledgers name.

    Each operation is a function of the manager's state. LinuxManager holds the manager
    itself, whose methods compute these functions; LinuxGuarantees what they guarantee. */
module LinuxRoutes {
  import opened Text
  import opened RouteTable

  // What a destination argument of `ip route` denotes; None when it is malformed.
  type Syntax = string -> Option<Prefix>

  datatype State = State(
    tun: string, gw: string, dev: string, denote: Syntax,
    bypass: seq<string>, exclude: seq<string>, extra: seq<string>, dnsTun: seq<string>,
    splits: bool, killSwitch: bool, killSwitchAdded: bool,
    kernel: Kernel)

  // Every route that avoids the tunnel leaves the way the old default route did.
  function BypassHop(m: State): NextHop {
    if m.dev != "" && m.gw != "" then Via(m.gw, m.dev)
    else if m.dev != "" then Device(m.dev)
    else Reject
  }

  function Dests(denote: Syntax, l: seq<string>): (r: seq<Option<Prefix>>)
    ensures |r| == |l|
    ensures forall i :: 0 <= i < |l| ==> r[i] == denote(l[i])
  {
    seq(|l|, i requires 0 <= i < |l| => denote(l[i]))
  }

  // ---------- The operations ----------

  function BypassOne(m: State, ip: string): State {
    m.(kernel := Add(m.kernel, m.denote(ip), BypassHop(m)), bypass := m.bypass + [ip])
  }

  // The answer of the resolver: one entry per address, None for one without IPv4 form.
  function BypassAll(m: State, ips: seq<Option<string>>): State
    decreases |ips|
  {
    if ips == [] then m
    else BypassAll(if ips[0].Some? then BypassOne(m, ips[0].value) else m, ips[1..])
  }

  function AddBypassEndpoint(m: State, host: string, ips: seq<Option<string>>): State {
    if host == "" || m.dev == "" then m else BypassAll(m, ips)
  }

  function AddSplitDefault(m: State): State {
    var lower := Add(m.kernel, Some(LOWER_HALF), Device(m.tun));
    m.(kernel := Add(lower, Some(UPPER_HALF), Device(m.tun)), splits := true)
  }

  function DropDefault(m: State): Kernel {
    if m.dev != "" then DeleteVia(m.kernel, DEFAULT, BypassHop(m))
    else Delete(m.kernel, Some(DEFAULT))
  }

  function AddKillSwitchRoute(m: State): State {
    var k := DropDefault(m);
    var blocked := Add(k, Some(DEFAULT), Blackhole);
    if AddOutcome(k, Some(DEFAULT)) == Done then
      m.(killSwitch := true, killSwitchAdded := true, kernel := blocked)
    else if m.gw != "" && m.dev != "" then
      m.(killSwitch := true, kernel := Add(blocked, Some(DEFAULT), Via(m.gw, m.dev)))
    else
      m.(killSwitch := true, kernel := blocked)
  }

  function AddExclude(m: State, dest: string): State {
    var d := TrimSpace(dest);
    if d == "" then m
    else m.(kernel := Add(m.kernel, m.denote(d), BypassHop(m)), exclude := m.exclude + [d])
  }

  function AddExtraRoute(m: State, dest: string): State {
    var d := TrimSpace(dest);
    if d == "" then m
    else m.(kernel := Add(m.kernel, m.denote(d), Device(m.tun)), extra := m.extra + [d])
  }

  function DnsOne(m: State, ip: string, bypass: bool): State {
    var d := TrimSpace(ip);
    if d == "" || (bypass && m.dev == "") then m
    else if bypass then BypassOne(m, d)
    else m.(kernel := Add(m.kernel, m.denote(d), Device(m.tun)), dnsTun := m.dnsTun + [d])
  }

  function AddDNSServerRoutes(m: State, ips: seq<string>, bypass: bool): State
    decreases |ips|
  {
    if ips == [] then m else AddDNSServerRoutes(DnsOne(m, ips[0], bypass), ips[1..], bypass)
  }

  // What Cleanup deletes, in the order in which it does.
  function Splits(m: State): seq<Option<Prefix>> {
    if m.splits then [Some(LOWER_HALF), Some(UPPER_HALF)] else []
  }

  function Recorded(m: State): seq<Option<Prefix>> {
    Splits(m) + Dests(m.denote, m.bypass) + Dests(m.denote, m.exclude)
    + Dests(m.denote, m.extra) + Dests(m.denote, m.dnsTun)
  }

  function Cleanup(m: State): State {
    var k := LinkDown(DeleteAll(m.kernel, Recorded(m)), m.tun);
    m.(kernel :=
      if !m.killSwitchAdded || m.killSwitch then k
      else
        var k1 := DeleteVia(k, DEFAULT, Blackhole);
        if m.gw != "" && m.dev != "" then Add(k1, Some(DEFAULT), Via(m.gw, m.dev)) else k1)
  }

  // ---------- Sessions ----------

  datatype Op =
    | BypassEndpoint(host: string, ips: seq<Option<string>>)
    | SplitDefault
    | KillSwitch
    | Exclude(dest: string)
    | ExtraRoute(dest: string)
    | DnsRoutes(servers: seq<string>, bypass: bool)

  function Apply(m: State, op: Op): State {
    match op
    case BypassEndpoint(host, ips) => AddBypassEndpoint(m, host, ips)
    case SplitDefault => AddSplitDefault(m)
    case KillSwitch => AddKillSwitchRoute(m)
    case Exclude(dest) => AddExclude(m, dest)
    case ExtraRoute(dest) => AddExtraRoute(m, dest)
    case DnsRoutes(servers, bypass) => AddDNSServerRoutes(m, servers, bypass)
  }

  function Run(m: State, ops: seq<Op>): State
    decreases |ops|
  {
    if ops == [] then m else Run(Apply(m, ops[0]), ops[1..])
  }
}
