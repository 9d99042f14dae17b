/** The datagrams between a SOCKS client and the UDP relay, section 7 of RFC 1928: what the
    relay reads from the client and what it writes back. */
module UdpDatagram {
  import opened Text
  import opened Inet
  import opened SocksHandshake

  datatype Datagram = Datagram(target: Target, port: nat, payload: Bytes)

  // ---------- Reading ----------

  // Shorter than ten bytes, reserved or fragment bytes set, unknown address type, or cut
  // short: the datagram is ignored.
  function Unpack(p: Bytes): Option<Datagram> {
    if |p| < 10 || p[0] != 0 || p[1] != 0 || p[2] != 0 then None
    else
      match ReadAddress(p[3], p, 4)
      case Read(t, next) =>
        if |p| < next + 2 then None
        else Some(Datagram(t, Int(p[next]) * 256 + Int(p[next + 1]), p[next + 2..]))
      case _ => None
  }

  // The reader's loop body, with its cursor; every index is in range for every datagram.
  method ReadDatagram(p: Bytes) returns (d: Option<Datagram>)
    ensures d == Unpack(p)
  {
    if |p| < 10 {
      return None;
    }
    if p[0] != 0 || p[1] != 0 || p[2] != 0 {
      return None;
    }
    var atyp, off := p[3], 4;
    var t;
    if atyp == 1 {
      if |p| < off + 4 + 2 {
        return None;
      }
      t := V4(p[off..off + 4]);
      off := off + 4;
    } else if atyp == 3 {
      if |p| < off + 1 {
        return None;
      }
      var l := Int(p[off]);
      off := off + 1;
      if |p| < off + l + 2 {
        return None;
      }
      t := Domain(p[off..off + l]);
      off := off + l;
    } else if atyp == 4 {
      if |p| < off + 16 + 2 {
        return None;
      }
      t := V6(p[off..off + 16]);
      off := off + 16;
    } else {
      return None;
    }
    var port := Int(p[off]) * 256 + Int(p[off + 1]);
    off := off + 2;
    return Some(Datagram(t, port, p[off..]));
  }

  // ---------- Writing ----------

  predicate IsAddress(ip: Bytes) { |ip| == 4 || |ip| == 16 }

  // A source address in its shortest form: IPv4 also when it comes as an IPv6 address.
  function Source(ip: Bytes): Target
    requires IsAddress(ip)
    ensures WellFormed([], Source(ip), 0)
  {
    match To4(ip)
    case Some(v4) => V4(v4)
    case None => V6(ip)
  }

  // A datagram as a client writes it.
  function Frame(t: Target, port: nat, payload: Bytes): Bytes
    requires WellFormed([], t, port)
  {
    [0, 0, 0, Atyp(t)] + Address(t) + [port / 256, port % 256] + payload
  }

  // A datagram as the relay writes it, from a source address and port.
  function Pack(ip: Bytes, port: nat, payload: Bytes): Bytes
    requires IsAddress(ip) && port < 0x1_0000
  {
    Frame(Source(ip), port, payload)
  }

  // The header that sendBack appends to piece by piece.
  method WriteDatagram(ip: Bytes, port: nat, payload: Bytes) returns (pkt: Bytes)
    requires IsAddress(ip) && port < 0x1_0000
    ensures pkt == Pack(ip, port, payload)
  {
    var hdr: Bytes := [0, 0, 0];
    if To4(ip).Some? {
      hdr := hdr + [1];
      hdr := hdr + To4(ip).value;
    } else {
      hdr := hdr + [4];
      hdr := hdr + ip;
    }
    hdr := hdr + [port / 256, port % 256];
    pkt := hdr + payload;
    assert pkt == Pack(ip, port, payload);
  }

  // ---------- Round trips ----------

  // A client's datagram for any target reads back as what was meant, exactly when it is at
  // least ten bytes long; shorter ones, which only domain names can make, are ignored.
  lemma FramedReadsIff(t: Target, port: nat, payload: Bytes)
    requires WellFormed([], t, port)
    ensures var p := Frame(t, port, payload);
      && (|p| >= 10 ==> Unpack(p) == Some(Datagram(t, port, payload)))
      && (|p| < 10 ==> Unpack(p) == None)
      && (|p| < 10 <==> t.Domain? && |t.name| + |payload| < 3)
  {
    var p, head, ports := Frame(t, port, payload), [0, 0, 0, Atyp(t)], [port / 256, port % 256];
    assert p == head + Address(t) + (ports + payload);
    AddressReads(head, t, ports + payload);
    assert p[..4] == head;
    assert p[0] == head[0] && p[1] == head[1] && p[2] == head[2] && p[3] == head[3];
    var next := 4 + |Address(t)|;
    assert p[next] == ports[0] && p[next + 1] == ports[1] && p[next + 2..] == payload;
  }

  // Conversely, whatever is accepted is the frame of what it reads as.
  lemma AcceptedIsFramed(p: Bytes)
    requires Unpack(p).Some?
    ensures var d := Unpack(p).value;
      WellFormed([], d.target, d.port) && Frame(d.target, d.port, d.payload) == p
  {
    var d, r := Unpack(p).value, ReadAddress(p[3], p, 4);
    ReadIsAddress(p[3], p, 4);
    assert r.next + 2 <= |p| && d.payload == p[r.next + 2..];
    assert p[r.next] == d.port / 256 && p[r.next + 1] == d.port % 256;
    hide ReadAddress, Address, Unpack;
    assert p[r.next..r.next + 2] == [d.port / 256, d.port % 256];
    assert p == p[..4] + p[4..r.next] + p[r.next..r.next + 2] + d.payload;
    assert p[..4] == [0, 0, 0, Atyp(d.target)];
  }

  // A short name with an empty payload is a well-formed datagram of section 7 of RFC 1928
  // that the relay ignores.
  lemma ShortNameIsIgnored(port: nat)
    requires port < 0x1_0000
    ensures WellFormed([], Domain([97, 98]), port) && Unpack(Frame(Domain([97, 98]), port, [])) == None
  {
    FramedReadsIff(Domain([97, 98]), port, []);
  }

  // What the relay writes for any source address, port and payload reads back as these.
  lemma WrittenReads(ip: Bytes, port: nat, payload: Bytes)
    requires IsAddress(ip) && port < 0x1_0000
    ensures Unpack(Pack(ip, port, payload)) == Some(Datagram(Source(ip), port, payload))
  {
    FramedReadsIff(Source(ip), port, payload);
  }

  // An accepted datagram with an address is what the relay would write for that address,
  // unless an IPv4 address was sent in its IPv6 form.
  lemma ReadWritesBackIff(p: Bytes)
    requires Unpack(p).Some? && !Unpack(p).value.target.Domain?
    ensures var d := Unpack(p).value;
      && IsAddress(d.target.ip) && d.port < 0x1_0000
      && (Pack(d.target.ip, d.port, d.payload) == p <==> (d.target.V6? ==> To4(d.target.ip).None?))
  {
    var d := Unpack(p).value;
    AcceptedIsFramed(p);
    var w := Pack(d.target.ip, d.port, d.payload);
    if d.target.V6? && To4(d.target.ip).Some? {
      assert w[3] == 1 && p[3] == 4;
    } else {
      assert Source(d.target.ip) == d.target;
    }
  }

  // The bytes of two datagrams, for the record: to 8.8.8.8 port 53, and to the name "ab"
  // port 443.
  lemma KnownDatagrams()
    ensures Frame(V4([8, 8, 8, 8]), 53, [1, 2]) == [0, 0, 0, 1, 8, 8, 8, 8, 0, 53, 1, 2]
    ensures Frame(Domain([97, 98]), 443, [7]) == [0, 0, 0, 3, 2, 97, 98, 1, 187, 7]
  {
  }
}
