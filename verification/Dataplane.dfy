/** The receive closure of vpnRunCore: every packet from the provider is dropped or written
    to the TUN device and counted in 64-bit counters. */
module Dataplane {
  import opened Text
  import opened Inet
  import opened InboundFilter
  import RouteTable

  const WORD := 0x1_0000_0000_0000_0000  // the counters wrap around

  datatype Policy = Policy(enableIPv6: bool, blockNewInbound: bool, nets: seq<Option<Network>>)

  // The policy that the options amount to: both the filter's switch and its allowlist
  // come from the inbound options.
  function PolicyOf(enableIPv6: bool, o: Options, parse: string -> Option<Network>): Policy {
    Policy(enableIPv6, Filtering(o), Allowlist(Entries(o), parse))
  }

  datatype Fate = Written | DroppedIPv6 | DroppedByFilter

  ghost function FateOf(c: Policy, p: Packet): Fate {
    if p != [] && p[0] / 16 == 6 && !c.enableIPv6 then DroppedIPv6
    else if c.blockNewInbound && Drops(p, c.nets) then DroppedByFilter
    else Written
  }

  // The packets of one fate, in order of arrival.
  ghost function WithFate(c: Policy, ps: seq<Packet>, f: Fate): seq<Packet> {
    if ps == [] then []
    else WithFate(c, ps[..|ps| - 1], f) + (if FateOf(c, ps[|ps| - 1]) == f then [ps[|ps| - 1]] else [])
  }

  function TotalLength(ps: seq<Packet>): nat {
    if ps == [] then 0 else TotalLength(ps[..|ps| - 1]) + |ps[|ps| - 1]|
  }

  lemma WrapAdd(a: nat, b: nat)
    ensures (a % WORD + b) % WORD == (a + b) % WORD
  {
    var q := a / WORD;
    assert a + b == q * WORD + (a % WORD + b);
  }

  class Receiver {
    const policy: Policy
    var device: seq<Packet>                // what dev.Write was given
    var pktsIn: nat
    var bytesIn: nat
    ghost var received: seq<Packet>        // what the provider delivered
    ghost var droppedIPv6: seq<Packet>     // what each of the two branches dropped
    ghost var droppedByFilter: seq<Packet>

    // After any sequence of packets, the device got exactly those that neither rule drops,
    // in order, each branch dropped what its rule says, nothing was lost or made up, and
    // the counters are the written packets' number and total length modulo 2^64.
    ghost predicate Accurate()
      reads this
    {
      && device == WithFate(policy, received, Written)
      && droppedIPv6 == WithFate(policy, received, DroppedIPv6)
      && droppedByFilter == WithFate(policy, received, DroppedByFilter)
      && |received| == |device| + |droppedIPv6| + |droppedByFilter|
      && TotalLength(received) == TotalLength(device) + TotalLength(droppedIPv6) + TotalLength(droppedByFilter)
      && pktsIn == |device| % WORD
      && bytesIn == TotalLength(device) % WORD
    }

    constructor (policy: Policy)
      ensures Accurate() && received == [] && this.policy == policy
    {
      this.policy := policy;
      device, pktsIn, bytesIn := [], 0, 0;
      received, droppedIPv6, droppedByFilter := [], [], [];
    }

    method Receive(packet: Packet)
      requires Accurate() && AllValid(policy.nets)
      modifies this
      ensures Accurate() && received == old(received) + [packet]
    {
      hide Drops, WithFate, TotalLength, BitAnd;
      received := received + [packet];
      OneMoreFate(policy, old(received), packet);
      OneMoreLength(old(received), packet);
      if |packet| > 0 {
        Nibbles(packet[0]);
        var version := RouteTable.Shift(packet[0], 4);
        if version == 6 && !policy.enableIPv6 {
          OneMoreLength(droppedIPv6, packet);
          droppedIPv6 := droppedIPv6 + [packet];
          return;
        }
      }
      if policy.blockNewInbound {
        var drop := ShouldDropInbound(packet, policy.nets);
        if drop {
          OneMoreLength(droppedByFilter, packet);
          droppedByFilter := droppedByFilter + [packet];
          return;
        }
      }
      OneMoreLength(device, packet);
      device := device + [packet];
      WrapAdd(|old(device)|, 1);
      WrapAdd(TotalLength(old(device)), |packet|);
      pktsIn := (pktsIn + 1) % WORD;
      bytesIn := (bytesIn + |packet|) % WORD;
    }
  }

  lemma OneMoreFate(c: Policy, ps: seq<Packet>, p: Packet)
    ensures forall f :: WithFate(c, ps + [p], f) == if FateOf(c, p) == f then WithFate(c, ps, f) + [p] else WithFate(c, ps, f)
  {
    assert (ps + [p])[..|ps|] == ps;
  }

  lemma OneMoreLength(ps: seq<Packet>, p: Packet)
    ensures TotalLength(ps + [p]) == TotalLength(ps) + |p|
  {
    assert (ps + [p])[..|ps|] == ps;
  }

  // ---------- Enlarging the allowlist ----------

  ghost predicate Grows(a: seq<Option<Network>>, b: seq<Option<Network>>) {
    forall n :: Some(n) in a ==> Some(n) in b
  }

  // With the filter's switch as it is, a longer allowlist loses no packet.
  lemma {:induction false} EnlargingKeepsWritten(c: Policy, d: Policy, ps: seq<Packet>)
    requires c.enableIPv6 == d.enableIPv6 && Grows(c.nets, d.nets)
    requires c.blockNewInbound || !d.blockNewInbound
    ensures Subsequence(WithFate(c, ps, Written), WithFate(d, ps, Written))
  {
    if ps == [] {
      return;
    }
    hide WithFate, Drops;
    var before, last := ps[..|ps| - 1], ps[|ps| - 1];
    EnlargingKeepsWritten(c, d, before);
    MoreAllowedFewerDrops(last, c.nets, d.nets);
    var a, b := WithFate(c, before, Written), WithFate(d, before, Written);
    assert (a + [last])[..|a|] == a && (b + [last])[..|b|] == b && before + [last] == ps;
    OneMoreFate(c, before, last);
    OneMoreFate(d, before, last);
  }

  // An IPv4 packet with a TCP segment that has the RST flag alone.
  const BARE_RESET: Packet := seq(40, i => if i == 0 then 0x45 else if i == 9 then 6 else if i == 33 then 4 else 0)

  // It is dropped whatever the allowlist says, so adding the first entry of an allowlist,
  // which also switches the filter on, loses it.
  lemma FirstEntryLosesResets(enableIPv6: bool, o: Options, p: Options, parse: string -> Option<Network>)
    requires !Filtering(o) && Filtering(p)
    ensures FateOf(PolicyOf(enableIPv6, o, parse), BARE_RESET) == Written
    ensures FateOf(PolicyOf(enableIPv6, p, parse), BARE_RESET) == DroppedByFilter
  {
    hide Entries, Allowlist;
    assert Decode(BARE_RESET).value.syn == false;
  }

  // Options that allow more sources lose no packet that was written, whatever arrives,
  // exactly when the filter was on before or stays off.
  lemma EnlargingKeepsWrittenIff(enableIPv6: bool, o: Options, p: Options, parse: string -> Option<Network>)
    requires Grows(Allowlist(Entries(o), parse), Allowlist(Entries(p), parse))
    ensures var c, d := PolicyOf(enableIPv6, o, parse), PolicyOf(enableIPv6, p, parse);
      (forall ps :: Subsequence(WithFate(c, ps, Written), WithFate(d, ps, Written)))
      <==> Filtering(o) || !Filtering(p)
  {
    hide Entries, Allowlist;
    var c, d := PolicyOf(enableIPv6, o, parse), PolicyOf(enableIPv6, p, parse);
    if Filtering(o) || !Filtering(p) {
      forall ps ensures Subsequence(WithFate(c, ps, Written), WithFate(d, ps, Written)) {
        EnlargingKeepsWritten(c, d, ps);
      }
    } else {
      FirstEntryLosesResets(enableIPv6, o, p, parse);
      OneMoreFate(c, [], BARE_RESET);
      OneMoreFate(d, [], BARE_RESET);
      var ps := [] + [BARE_RESET];
      assert WithFate(c, ps, Written) == [BARE_RESET] && WithFate(d, ps, Written) == [];
    }
  }

  // ---------- What becomes of a packet, by its first byte and the filter ----------

  // Packets of version 6 are dropped without IPv6; any other is dropped exactly by a filter
  // that is on and drops it.
  lemma FateIs(c: Policy, p: Packet)
    ensures FateOf(c, p) == DroppedIPv6 <==> p != [] && 96 <= p[0] <= 111 && !c.enableIPv6
    ensures FateOf(c, p) == Written <==>
      (p == [] || p[0] < 96 || p[0] > 111 || c.enableIPv6) && (!c.blockNewInbound || !Drops(p, c.nets))
  {
    hide Drops;
  }
}
