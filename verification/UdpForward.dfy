/** What the UDP relay does with a client datagram: resolve its target, choose the socket by
    the policy that CONNECT requests meet too, and send. */
module UdpForward {
  import opened Text
  import opened Inet
  import opened SocksHandshake
  import opened SocksServer
  import opened DomainPolicy
  import opened UdpDatagram

  // Which outbound sockets could be opened.
  datatype Sockets = Sockets(vpn: bool, sys: bool)

  // ip is empty where the code has none: for a domain target with an empty name.
  datatype Outgoing = Outgoing(ip: Bytes, port: nat, payload: Bytes, viaVpn: bool)

  function LowerBytes(name: Bytes): Bytes {
    seq(|name|, i requires 0 <= i < |name| => if 65 <= name[i] <= 90 then name[i] + 32 else name[i])
  }

  // The policy's view of a target: the empty text for one that is given as an address.
  function RequestDomain(t: Target): string {
    if t.Domain? then DomainText(t.name) else ""
  }

  // Unlike CONNECT, the relay looks a name up in lower case.
  function Resolve(e: Environment, t: Target): Option<Bytes> {
    match t
    case Domain(name) => if name == [] then Some([]) else Pick(e.lookup(LowerBytes(name)))
    case _ => Some(t.ip)
  }

  // What is sent for a datagram, if anything.
  function Forwarded(e: Environment, k: Sockets, p: Bytes): Option<Outgoing> {
    match Unpack(p)
    case None => None
    case Some(d) =>
      var ip := Resolve(e, d.target);
      var vpn := k.vpn && UsesVpn(RequestDomain(d.target), e.allow, e.exclude);
      if ip.None? || (!vpn && !k.sys) then None else Some(Outgoing(ip.value, d.port, d.payload, vpn))
  }

  // The loop body of the client's reader, after the receipt of a datagram.
  method Forward(e: Environment, k: Sockets, p: Bytes) returns (out: Option<Outgoing>)
    ensures out == Forwarded(e, k, p)
  {
    hide UsesVpn, Pick, Unpack;
    var d := ReadDatagram(p);
    if d.None? {
      return None;
    }
    var t := d.value.target;
    var ip, domain := [], "";
    if t.Domain? {
      domain := DomainText(t.name);
      if domain != "" {
        var found := Prefer(e.lookup(LowerBytes(t.name)));
        if found.None? {
          return None;
        }
        ip := found.value;
      }
    } else {
      ip := t.ip;
    }
    var useVPN := Decide(domain, e.allow, e.exclude);
    if useVPN && k.vpn {
      return Some(Outgoing(ip, d.value.port, d.value.payload, true));
    } else if k.sys {
      return Some(Outgoing(ip, d.value.port, d.value.payload, false));
    } else {
      return None;
    }
  }

  // A connection and a datagram to the same target take the same path, as long as both
  // sockets are there; and nothing but the path depends on the policy.
  lemma PathsAgree(e: Environment, k: Sockets, t: Target, port: nat, payload: Bytes, r: Response)
    requires WellFormed([], t, port)
    requires Responds(e, Connect(t, port), r) && r.Proxy? && k.vpn && k.sys
    requires Forwarded(e, k, Frame(t, port, payload)).Some?
    ensures var o := Forwarded(e, k, Frame(t, port, payload)).value;
      o.viaVpn == r.useVPN && o.port == r.port == port && o.payload == payload
  {
    FramedReadsIff(t, port, payload);
    hide Frame, Unpack, UsesVpn, Pick;
  }

  // A datagram to an address goes there as it is: through the VPN socket exactly when no
  // allow list is set and there is one, and nowhere only if no socket is left.
  lemma AddressIsForwarded(e: Environment, k: Sockets, ip: Bytes, port: nat, payload: Bytes)
    requires (|ip| == 4 || |ip| == 16) && port < 0x1_0000
    ensures Forwarded(e, k, Frame(if |ip| == 4 then V4(ip) else V6(ip), port, payload)) ==
      if e.allow == [] && k.vpn then Some(Outgoing(ip, port, payload, true))
      else if k.sys then Some(Outgoing(ip, port, payload, false))
      else None
  {
    var t := if |ip| == 4 then V4(ip) else V6(ip);
    FramedReadsIff(t, port, payload);
    hide Frame, Unpack;
  }

  // A datagram to a name goes to the address that its lower-case form resolves to, over the
  // path that the policy has for it, and nowhere if there is none.
  lemma NameIsForwarded(e: Environment, k: Sockets, name: Bytes, port: nat, payload: Bytes)
    requires 0 < |name| < 256 && |name| + |payload| >= 3 && port < 0x1_0000 && k.vpn && k.sys
    ensures var out := Forwarded(e, k, Frame(Domain(name), port, payload));
      match Pick(e.lookup(LowerBytes(name)))
      case None => out == None
      case Some(a) => out == Some(Outgoing(a, port, payload, UsesVpn(DomainText(name), e.allow, e.exclude)))
  {
    FramedReadsIff(Domain(name), port, payload);
    hide Frame, Unpack, UsesVpn, Pick;
  }

  // The form that is looked up is the same name without capitals.
  lemma LowerBytesFolds(name: Bytes)
    ensures |LowerBytes(name)| == |name| && DomainText(LowerBytes(name)) == DomainText(name)
    ensures forall b :: b in LowerBytes(name) ==> !(65 <= b <= 90)
  {
    var l := LowerBytes(name);
    assert forall i :: 0 <= i < |name| ==> DomainText(l)[i] == DomainText(name)[i];
  }
}
