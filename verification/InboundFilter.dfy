/** The inbound packet filter of vpn_core.go. The decoder below is the policy's view of a
    packet, written after section 3.1 of RFC 791, section 3 of RFC 8200 and section 3.1 of
    RFC 9293; the methods are the filter as it reads bytes and bits. */
module InboundFilter {
  import opened Text
  import opened Csv
  import opened RouteTable
  import opened Inet

  type Packet = seq<byte>

  // ---------- The policy ----------

  datatype Segment = Segment(src: seq<byte>, syn: bool, ack: bool)

  // The TCP segment that a packet visibly carries: the whole fixed TCP header must be
  // there, and in IPv6 TCP must be the first next header.
  function Decode(p: Packet): Option<Segment> {
    if |p| >= 20 && p[0] / 16 == 4 then
      var ihl := p[0] % 16 * 4;
      if ihl >= 20 && |p| >= ihl + 20 && p[9] == 6 then
        Some(Segment(p[12..16], p[ihl + 13] / 2 % 2 == 1, p[ihl + 13] / 16 % 2 == 1))
      else None
    else if |p| >= 60 && p[0] / 16 == 6 && p[6] == 6 then
      Some(Segment(p[8..24], p[53] / 2 % 2 == 1, p[53] / 16 % 2 == 1))
    else None
  }

  // The network's address and the other one have the same quotient by the network's size,
  // in the same address family.
  predicate Within(n: Network, src: seq<byte>) {
    var x, base := To4(src).GetOr(src), To4(n.ip).GetOr(n.ip);
    && |x| == |base| && Bits(n) <= 8 * |base|
    && var size := Pow2(8 * |base| - Bits(n));
       Num(x) / size == Num(base) / size
  }

  ghost predicate Allowed(nets: seq<Option<Network>>, src: seq<byte>) {
    exists n :: Some(n) in nets && Within(n, src)
  }

  // A TCP segment without ACK is unwelcome, except a SYN from an allowed source.
  ghost predicate Drops(p: Packet, nets: seq<Option<Network>>) {
    match Decode(p)
    case None => false
    case Some(t) => !t.ack && !(t.syn && Allowed(nets, t.src))
  }

  ghost predicate AllValid(nets: seq<Option<Network>>) { forall n :: Some(n) in nets ==> Valid(n) }

  // ---------- Bits of a byte ----------

  lemma LowBit(x: nat)
    ensures BitAnd(x, 1) == x % 2
  {
  }

  lemma SynBit(f: byte)
    ensures BitAnd(f, 0x02) == 2 * (f / 2 % 2)
  {
    LowBit(f / 2);
    AndEven(f, 1);
  }

  lemma AckBit(f: byte)
    ensures BitAnd(f, 0x10) == 16 * (f / 16 % 2)
  {
    AndEven(f, 8);
    AndEven(f / 2, 4);
    AndEven(f / 4, 2);
    AndEven(f / 8, 1);
    LowBit(f / 16);
    assert f / 2 / 2 == f / 4 && f / 4 / 2 == f / 8 && f / 8 / 2 == f / 16;
  }

  lemma AndOdd(x: nat, y: nat)
    ensures BitAnd(x, 2 * y + 1) == x % 2 + 2 * BitAnd(x / 2, y)
  {
    assert (2 * y + 1) / 2 == y && (2 * y + 1) % 2 == 1;
  }

  lemma Nibbles(f: byte)
    ensures BitAnd(f, 0x0F) == f % 16 && Shift(f, 4) == f / 16
  {
    AndOdd(f, 7);
    AndOdd(f / 2, 3);
    AndOdd(f / 4, 1);
    LowBit(f / 8);
    assert f / 2 / 2 == f / 4 && f / 4 / 2 == f / 8 && f / 8 / 2 == f / 16;
    assert Shift(f, 4) == Shift(f / 2, 3);
    assert Shift(f / 2, 3) == Shift(f / 4, 2);
    assert Shift(f / 4, 2) == Shift(f / 8, 1);
    assert Shift(f / 8, 1) == Shift(f / 16, 0);
  }

  // ---------- The filter ----------

  lemma ContainsIsWithin(n: Network, src: seq<byte>)
    requires Valid(n) && (|src| == 4 || |src| == 16)
    ensures Contains(n, src) <==> Within(n, src)
  {
    hide Contains, To4, Num, Bits, Pow2;
    ContainsIsPrefix(n, src);
  }

  // The loop over the allowlist, whose nil entries are skipped.
  method ContainedInAny(src: seq<byte>, nets: seq<Option<Network>>) returns (ok: bool)
    requires AllValid(nets) && (|src| == 4 || |src| == 16)
    ensures ok <==> Allowed(nets, src)
  {
    hide Contains, Within;
    for i := 0 to |nets|
      invariant forall j | 0 <= j < i :: nets[j].Some? ==> !Within(nets[j].value, src)
    {
      if nets[i].Some? {
        var n := nets[i].value;
        assert Some(n) in nets;
        ContainsIsWithin(n, src);
        if Contains(n, src) {
          return true;
        }
      }
    }
    return false;
  }

  // The filter looks IPv4 sources up in their 16-byte form, as net.IPv4 returns them.
  lemma MappedIsSame(nets: seq<Option<Network>>, v4: seq<byte>)
    requires |v4| == 4
    ensures Allowed(nets, V4_IN_V6 + v4) <==> Allowed(nets, v4)
  {
    var m := V4_IN_V6 + v4;
    assert m[..12] == V4_IN_V6 && m[12..] == v4;
    forall n ensures Within(n, m) <==> Within(n, v4) {}
  }

  method ShouldDropInboundIPv4(packet: Packet, nets: seq<Option<Network>>) returns (drop: bool)
    requires AllValid(nets) && |packet| > 0 && packet[0] / 16 == 4
    ensures drop <==> Drops(packet, nets)
  {
    if |packet| < 20 {
      return false;
    }
    Nibbles(packet[0]);
    var ihl := BitAnd(packet[0], 0x0F) * 4;
    if ihl < 20 || |packet| < ihl + 20 {
      return false;
    }
    if packet[9] != 6 {
      return false;
    }
    var flags := packet[ihl + 13];
    SynBit(flags);
    AckBit(flags);
    var syn, ack := BitAnd(flags, 0x02) != 0, BitAnd(flags, 0x10) != 0;
    if syn && !ack {
      if |nets| > 0 {
        MappedIsSame(nets, packet[12..16]);
        var ok := ContainedInAny(V4_IN_V6 + packet[12..16], nets);
        if ok {
          return false;
        }
      }
      return true;
    }
    if !ack {
      return true;
    }
    return false;
  }

  method ShouldDropInboundIPv6(packet: Packet, nets: seq<Option<Network>>) returns (drop: bool)
    requires AllValid(nets) && |packet| > 0 && packet[0] / 16 == 6
    ensures drop <==> Drops(packet, nets)
  {
    var headerLen := 40;
    if |packet| < headerLen + 20 {
      return false;
    }
    if packet[6] != 6 {
      return false;
    }
    var flags := packet[headerLen + 13];
    SynBit(flags);
    AckBit(flags);
    var syn, ack := BitAnd(flags, 0x02) != 0, BitAnd(flags, 0x10) != 0;
    if syn && !ack {
      if |nets| > 0 {
        var ok := ContainedInAny(packet[8..24], nets);
        if ok {
          return false;
        }
      }
      return true;
    }
    if !ack {
      return true;
    }
    return false;
  }

  // For every byte string, however short, and every allowlist: the filter applies the policy.
  method ShouldDropInbound(packet: Packet, nets: seq<Option<Network>>) returns (drop: bool)
    requires AllValid(nets)
    ensures drop <==> Drops(packet, nets)
  {
    if |packet| < 1 {
      return false;
    }
    Nibbles(packet[0]);
    var version := Shift(packet[0], 4);
    if version == 4 {
      drop := ShouldDropInboundIPv4(packet, nets);
    } else if version == 6 {
      drop := ShouldDropInboundIPv6(packet, nets);
    } else {
      drop := false;
    }
  }

  // A longer allowlist never drops a packet that a shorter one lets pass.
  lemma MoreAllowedFewerDrops(p: Packet, few: seq<Option<Network>>, many: seq<Option<Network>>)
    requires forall n :: Some(n) in few ==> Some(n) in many
    ensures Drops(p, many) ==> Drops(p, few)
  {
  }

  // ---------- The allowlist ----------

  // The options that control inbound connections; tunCidr is the tunnel's own network.
  datatype Options = Options(sources: string, local: bool, tunCidr: string)

  const LOCAL_NETWORKS := ["127.0.0.0/8", "169.254.0.0/16", "10.0.0.0/8", "172.16.0.0/12",
                           "192.168.0.0/16", "100.64.0.0/10"]

  // Whether the filter is on at all.
  predicate Filtering(o: Options) { o.local || o.sources != "" }

  // The entries that are looked up, in order: the configured sources, then the local
  // networks and the tunnel's own network.
  function Entries(o: Options): seq<string> {
    Normal(o.sources) + (if o.local then LOCAL_NETWORKS + (if o.tunCidr == "" then [] else [o.tunCidr]) else [])
  }

  // Their networks, less the entries that do not parse; parse stands for parseCIDRHost.
  function Allowlist(entries: seq<string>, parse: string -> Option<Network>): seq<Option<Network>> {
    if entries == [] then []
    else
      var n := |entries| - 1;
      var front, last := Allowlist(entries[..n], parse), parse(entries[n]);
      if last.Some? then front + [last] else front
  }

  lemma {:induction false} AllowlistHolds(entries: seq<string>, parse: string -> Option<Network>)
    ensures None !in Allowlist(entries, parse)
    ensures forall n :: Some(n) in Allowlist(entries, parse) <==> exists s | s in entries :: parse(s) == Some(n)
  {
    if entries != [] {
      var front, last := entries[..|entries| - 1], entries[|entries| - 1];
      AllowlistHolds(front, parse);
      assert entries == front + [last];
    }
  }

  method AppendNet(nets: seq<Option<Network>>, ghost done: seq<string>, s: string, parse: string -> Option<Network>)
    returns (more: seq<Option<Network>>)
    requires nets == Allowlist(done, parse)
    ensures more == Allowlist(done + [s], parse)
  {
    assert (done + [s])[..|done|] == done;
    var n := parse(s);
    if n.Some? {
      return nets + [n];
    }
    return nets;
  }

  method BuildAllowlist(o: Options, parse: string -> Option<Network>)
    returns (block: bool, nets: seq<Option<Network>>)
    ensures block <==> Filtering(o)
    ensures nets == Allowlist(Entries(o), parse)
    ensures !block ==> nets == []
  {
    hide Normal, Allowlist;
    block := o.local || o.sources != "";
    nets := [];
    ghost var done: seq<string> := [];
    AllowlistOfNothing(parse);
    if o.sources != "" {
      var sources := SplitCsv(o.sources);
      for i := 0 to |sources|
        invariant done == sources[..i] && nets == Allowlist(done, parse)
      {
        nets := AppendNet(nets, done, sources[i], parse);
        done := done + [sources[i]];
      }
    } else {
      NothingListed();
    }
    assert done == Normal(o.sources);
    if o.local {
      for i := 0 to |LOCAL_NETWORKS|
        invariant done == Normal(o.sources) + LOCAL_NETWORKS[..i] && nets == Allowlist(done, parse)
      {
        nets := AppendNet(nets, done, LOCAL_NETWORKS[i], parse);
        done := done + [LOCAL_NETWORKS[i]];
      }
      if o.tunCidr != "" {
        nets := AppendNet(nets, done, o.tunCidr, parse);
        done := done + [o.tunCidr];
      }
    }
    assert done == Entries(o);
  }

  lemma AllowlistOfNothing(parse: string -> Option<Network>)
    ensures Allowlist([], parse) == []
  {
  }

  lemma NothingListed()
    ensures Normal("") == []
  {
    BlankCsv("");
  }

  // ---------- The policy over a packet's fields ----------

  // The fixed part of a TCP header: what stands before the flags, the flags, what follows.
  datatype Tcp = Tcp(head: seq<byte>, flags: byte, rest: seq<byte>)

  predicate Complete(t: Tcp) { |t.head| == 13 && |t.rest| >= 6 }

  // An IPv4 packet by its fields: mid stands between the type of service and the protocol
  // (length, identification, fragmentation, time to live).
  function PacketV4(ihl: nat, tos: byte, mid: seq<byte>, proto: byte, sum: seq<byte>,
                    src: seq<byte>, dst: seq<byte>, options: seq<byte>, t: Tcp): Packet
    requires 5 <= ihl <= 15
  {
    [64 + ihl, tos] + mid + [proto] + sum + src + dst + options + t.head + [t.flags] + t.rest
  }

  predicate FieldsV4(ihl: nat, mid: seq<byte>, sum: seq<byte>, src: seq<byte>, dst: seq<byte>, options: seq<byte>, t: Tcp) {
    && 5 <= ihl <= 15 && |mid| == 7 && |sum| == 2 && |src| == 4 && |dst| == 4
    && |options| == 4 * ihl - 20 && Complete(t)
  }

  // An IPv6 packet by its fields: mid is the flow label and payload length.
  function PacketV6(tc: nat, mid: seq<byte>, next: byte, hops: byte, src: seq<byte>, dst: seq<byte>, t: Tcp): Packet
    requires tc < 16
  {
    [96 + tc] + mid + [next, hops] + src + dst + t.head + [t.flags] + t.rest
  }

  predicate FieldsV6(tc: nat, mid: seq<byte>, src: seq<byte>, dst: seq<byte>, t: Tcp) {
    tc < 16 && |mid| == 5 && |src| == 16 && |dst| == 16 && Complete(t)
  }

  lemma DecodesV4(ihl: nat, tos: byte, mid: seq<byte>, proto: byte, sum: seq<byte>,
                  src: seq<byte>, dst: seq<byte>, options: seq<byte>, t: Tcp)
    requires FieldsV4(ihl, mid, sum, src, dst, options, t)
    ensures Decode(PacketV4(ihl, tos, mid, proto, sum, src, dst, options, t)) ==
      if proto == 6 then Some(Segment(src, t.flags / 2 % 2 == 1, t.flags / 16 % 2 == 1)) else None
  {
    var p := PacketV4(ihl, tos, mid, proto, sum, src, dst, options, t);
    assert p[0] == 64 + ihl && p[9] == proto;
    assert p[12..16] == src;
    assert p[4 * ihl + 13] == t.flags;
    assert |p| >= 4 * ihl + 20;
  }

  lemma DecodesV6(tc: nat, mid: seq<byte>, next: byte, hops: byte, src: seq<byte>, dst: seq<byte>, t: Tcp)
    requires FieldsV6(tc, mid, src, dst, t)
    ensures Decode(PacketV6(tc, mid, next, hops, src, dst, t)) ==
      if next == 6 then Some(Segment(src, t.flags / 2 % 2 == 1, t.flags / 16 % 2 == 1)) else None
  {
    var p := PacketV6(tc, mid, next, hops, src, dst, t);
    assert p[0] == 96 + tc && p[6] == next;
    assert p[8..24] == src;
    assert p[53] == t.flags;
  }

  // Conversely, only packets with such fields decode at all.
  lemma DecodedHasFields(p: Packet)
    requires Decode(p).Some?
    ensures
      || (exists ihl, tos, mid, sum, src, dst, options, t ::
            FieldsV4(ihl, mid, sum, src, dst, options, t) && p == PacketV4(ihl, tos, mid, 6, sum, src, dst, options, t))
      || (exists tc, mid, hops, src, dst, t ::
            FieldsV6(tc, mid, src, dst, t) && p == PacketV6(tc, mid, 6, hops, src, dst, t))
  {
    if p[0] / 16 == 4 {
      FieldsOfV4(p);
    } else {
      FieldsOfV6(p);
    }
  }

  lemma FieldsOfV4(p: Packet)
    requires Decode(p).Some? && p[0] / 16 == 4
    ensures exists ihl, tos, mid, sum, src, dst, options, t ::
      FieldsV4(ihl, mid, sum, src, dst, options, t) && p == PacketV4(ihl, tos, mid, 6, sum, src, dst, options, t)
  {
    var ihl := p[0] % 16;
    var at := 4 * ihl;
    assert 5 <= ihl <= 15 && |p| >= at + 20 && p[9] == 6 && p[0] == 64 + ihl;
    hide Decode;
    var t := Tcp(p[at..at + 13], p[at + 13], p[at + 14..]);
    assert FieldsV4(ihl, p[2..9], p[10..12], p[12..16], p[16..20], p[20..at], t);
    assert p == PacketV4(ihl, p[1], p[2..9], 6, p[10..12], p[12..16], p[16..20], p[20..at], t);
  }

  lemma FieldsOfV6(p: Packet)
    requires Decode(p).Some? && p[0] / 16 != 4
    ensures exists tc, mid, hops, src, dst, t ::
      FieldsV6(tc, mid, src, dst, t) && p == PacketV6(tc, mid, 6, hops, src, dst, t)
  {
    var tc := p[0] % 16;
    assert |p| >= 60 && p[6] == 6 && p[0] == 96 + tc;
    hide Decode;
    var t := Tcp(p[40..53], p[53], p[54..]);
    assert FieldsV6(tc, p[1..6], p[8..24], p[24..40], t);
    assert p == PacketV6(tc, p[1..6], 6, p[7], p[8..24], p[24..40], t);
  }

  // The filter over the fields: of complete TCP packets without ACK, all but a SYN whose
  // source is in an allowed network are dropped.
  lemma DropsV4(ihl: nat, tos: byte, mid: seq<byte>, proto: byte, sum: seq<byte>,
                src: seq<byte>, dst: seq<byte>, options: seq<byte>, t: Tcp, nets: seq<Option<Network>>)
    requires FieldsV4(ihl, mid, sum, src, dst, options, t)
    ensures Drops(PacketV4(ihl, tos, mid, proto, sum, src, dst, options, t), nets) <==>
      && proto == 6 && t.flags / 16 % 2 == 0
      && (t.flags / 2 % 2 == 0 || forall n :: Some(n) in nets ==> !Within(n, src))
  {
    DecodesV4(ihl, tos, mid, proto, sum, src, dst, options, t);
    hide PacketV4, Decode, Within;
  }

  lemma DropsV6(tc: nat, mid: seq<byte>, next: byte, hops: byte, src: seq<byte>, dst: seq<byte>, t: Tcp,
                nets: seq<Option<Network>>)
    requires FieldsV6(tc, mid, src, dst, t)
    ensures Drops(PacketV6(tc, mid, next, hops, src, dst, t), nets) <==>
      && next == 6 && t.flags / 16 % 2 == 0
      && (t.flags / 2 % 2 == 0 || forall n :: Some(n) in nets ==> !Within(n, src))
  {
    DecodesV6(tc, mid, next, hops, src, dst, t);
    hide PacketV6, Decode, Within;
  }

  // No other packet is dropped, however malformed.
  lemma OnlyTcpIsDropped(p: Packet, nets: seq<Option<Network>>)
    requires Drops(p, nets)
    ensures
      || (exists ihl, tos, mid, sum, src, dst, options, t ::
            FieldsV4(ihl, mid, sum, src, dst, options, t) && p == PacketV4(ihl, tos, mid, 6, sum, src, dst, options, t))
      || (exists tc, mid, hops, src, dst, t ::
            FieldsV6(tc, mid, src, dst, t) && p == PacketV6(tc, mid, 6, hops, src, dst, t))
  {
    DecodedHasFields(p);
  }

  // Local sources are the loopback, link-local, private and shared networks of RFC 1122,
  // RFC 3927, RFC 1918 and RFC 6598, and the tunnel's own network.
  lemma LocalSources(tunCidr: string)
    ensures forall s :: s in Entries(Options("", true, tunCidr)) <==>
      || (s == tunCidr && tunCidr != "")
      || s in {"127.0.0.0/8", "169.254.0.0/16", "10.0.0.0/8", "172.16.0.0/12", "192.168.0.0/16", "100.64.0.0/10"}
    ensures Entries(Options("", false, tunCidr)) == []
  {
    BlankCsv("");
    hide Normal;
  }
}
