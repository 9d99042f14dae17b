/** The proxy's side of a connection, reading a stream that arrives in arbitrary segments
    through one reused buffer, and then relaying what follows the request. */
module SocksServer {
  import opened Text
  import opened Inet
  import opened SocksHandshake
  import opened DomainPolicy

  function Flatten(segments: seq<Bytes>): Bytes {
    if segments == [] then [] else segments[0] + Flatten(segments[1..])
  }

  // One end of a TCP connection: what is still to arrive, segment by segment, and what was
  // written. The n-th write fails when refuses(n).
  class Conn {
    var segments: seq<Bytes>
    var sent: Bytes
    var writes: nat
    const refuses: nat -> bool

    ghost function Stream(): Bytes
      reads this`segments
    {
      Flatten(segments)
    }

    ghost predicate Accepting()
      reads this`writes
    {
      forall n :: n >= writes ==> !refuses(n)
    }

    // One call of Read: some of the first segment, nothing only for an empty segment or
    // at the end of the stream.
    method Read(max: nat) returns (data: Bytes, eof: bool)
      requires max > 0
      modifies this`segments
      ensures eof <==> old(segments) == []
      ensures eof ==> segments == [] && data == []
      ensures !eof ==> data + Stream() == old(Stream()) && |data| <= max
      ensures !eof ==> (|segments| < |old(segments)| || (|segments| == |old(segments)| && data != []))
    {
      if segments == [] {
        return [], true;
      }
      var first := segments[0];
      assert segments[1..] == [first][1..] + segments[1..];
      if |first| <= max {
        data := first;
        segments := segments[1..];
      } else {
        data := first[..max];
        assert first == data + first[max..];
        segments := [first[max..]] + segments[1..];
        assert segments[1..] == old(segments)[1..];
      }
      eof := false;
    }

    // io.ReadFull into the front of a buffer: it depends on the stream, not on how the
    // stream is cut into segments.
    method ReadFull(buf: array<byte>, n: nat) returns (ok: bool)
      requires n <= buf.Length
      modifies this`segments, buf
      ensures ok <==> n <= |old(Stream())|
      ensures ok ==> buf[..n] == old(Stream())[..n] && Stream() == old(Stream())[n..]
      ensures !ok ==> Stream() == []
      ensures buf[n..] == old(buf[n..])
    {
      var got: nat := 0;
      ghost var s := Stream();
      while got < n
        invariant got <= n && got <= |s|
        invariant buf[..got] == s[..got] && Stream() == s[got..]
        invariant buf[n..] == old(buf[n..])
        decreases |segments|, n - got
      {
        var data, eof := Read(n - got);
        if eof {
          return false;
        }
        assert s[got..got + |data|] == data;
        Store(buf, got, data);
        got := got + |data|;
      }
      return true;
    }

    method Write(data: Bytes) returns (ok: bool)
      modifies this`sent, this`writes
      ensures writes == old(writes) + 1 && ok == !refuses(old(writes))
      ensures sent == if ok then old(sent) + data else old(sent)
    {
      ok := !refuses(writes);
      writes := writes + 1;
      if ok {
        sent := sent + data;
      }
    }
  }

  method Store(buf: array<byte>, at: nat, data: Bytes)
    requires at + |data| <= buf.Length
    modifies buf
    ensures buf[..at] == old(buf[..at]) && buf[at..at + |data|] == data
    ensures buf[at + |data|..] == old(buf[at + |data|..])
  {
    for i := 0 to |data|
      invariant buf[..at] == old(buf[..at]) && buf[at..at + i] == data[..i]
      invariant buf[at + |data|..] == old(buf[at + |data|..])
    {
      buf[at + i] := data[i];
      assert buf[at..at + i + 1] == buf[at..at + i] + [data[i]];
    }
  }

  // ---------- The handshake ----------

  // Whatever the segments: the verdict, what is taken off the stream and what the client
  // is told are those of the concatenated bytes. Every slice of the 262-byte buffer is in
  // range.
  method Handshake(c: Conn) returns (v: Verdict)
    modifies c
    ensures var p := Parse(old(c.Stream()), !c.refuses(old(c.writes)));
      && v == p.verdict
      && (v.Hangup? || c.Stream() == old(c.Stream())[p.consumed..])
      && c.sent == old(c.sent) + (if p.greeted then [5, 0] else [])
      && (p.greeted ==> c.writes == old(c.writes) + 1)
  {
    hide Flatten, ParseRequest;
    var buf := new byte[262];
    ghost var s := c.Stream();
    var ok := c.ReadFull(buf, 2);
    if !ok {
      return Hangup;
    }
    assert buf[0] == buf[..2][0] == s[0] && buf[1] == buf[..2][1] == s[1];
    var ver, nMethods := buf[0], buf[1];
    if ver != 5 {
      return Hangup;
    }
    ok := c.ReadFull(buf, nMethods);
    if !ok {
      return Hangup;
    }
    ok := c.Write([5, 0]);
    if !ok {
      return Hangup;
    }
    assert c.Stream() == s[2 + Int(nMethods)..];
    v := ReadRequest(c, buf, s, 2 + Int(nMethods));
  }

  method ReadRequest(c: Conn, buf: array<byte>, ghost s: Bytes, ghost at: nat) returns (v: Verdict)
    requires buf.Length == 262 && at <= |s| && c.Stream() == s[at..]
    modifies c`segments, buf
    ensures v == ParseRequest(s, at).verdict
    ensures v.Hangup? || c.Stream() == s[ParseRequest(s, at).consumed..]
  {
    hide Flatten;
    var ok := c.ReadFull(buf, 4);
    if !ok {
      return Hangup;
    }
    assert forall i :: 0 <= i < 4 ==> buf[i] == buf[..4][i] == s[at + i];
    var ver, cmd, atyp := buf[0], buf[1], buf[3];
    if ver != 5 {
      return Refused(1);
    }
    if cmd == 3 {
      return Associate;
    }
    if cmd != 1 {
      return Refused(7);
    }
    var t, status := ReadTarget(c, buf, atyp, s, at + 4);
    if status == UnknownType {
      return Refused(8);
    }
    if status == EndOfStream {
      return Hangup;
    }
    ghost var next := ReadAddress(atyp, s, at + 4).next;
    ok := c.ReadFull(buf, 2);
    if !ok {
      return Hangup;
    }
    assert buf[0] == buf[..2][0] == s[next] && buf[1] == buf[..2][1] == s[next + 1];
    return Connect(t, Int(buf[0]) * 256 + Int(buf[1]));
  }

  datatype Status = UnknownType | EndOfStream | Complete

  method ReadTarget(c: Conn, buf: array<byte>, atyp: byte, ghost s: Bytes, ghost at: nat)
    returns (t: Target, status: Status)
    requires buf.Length == 262 && at <= |s| && c.Stream() == s[at..]
    modifies c`segments, buf
    ensures match ReadAddress(atyp, s, at)
      case Unknown => status == UnknownType && c.Stream() == s[at..]
      case Short => status == EndOfStream
      case Read(target, next) => status == Complete && t == target && c.Stream() == s[next..]
  {
    t, status := V4([]), Complete;
    if atyp == 1 {
      var ok := c.ReadFull(buf, 4);
      if !ok {
        return t, EndOfStream;
      }
      t := V4(buf[..4]);
    } else if atyp == 4 {
      var ok := c.ReadFull(buf, 16);
      if !ok {
        return t, EndOfStream;
      }
      t := V6(buf[..16]);
    } else if atyp == 3 {
      var ok := c.ReadFull(buf, 1);
      if !ok {
        return t, EndOfStream;
      }
      assert buf[0] == buf[..1][0] == s[at];
      var l := Int(buf[0]);
      ok := c.ReadFull(buf, l);
      if !ok {
        return t, EndOfStream;
      }
      t := Domain(buf[..l]);
    } else {
      status := UnknownType;
    }
  }

  // ---------- Serving a connection ----------

  // What the proxy does with a verdict, given the resolver and the dialer.
  datatype Response = Silent | UdpSession | Reject(code: byte) | Proxy(ip: Bytes, port: nat, useVPN: bool)

  // IPv4 is preferred, otherwise the first address counts.
  predicate Preferred(addrs: seq<Bytes>, ip: Option<Bytes>) {
    match ip
    case None => addrs == []
    case Some(a) =>
      if exists x | x in addrs :: To4(x).Some? then
        exists i | 0 <= i < |addrs| :: addrs[i] == a && To4(a).Some? && forall j | 0 <= j < i :: To4(addrs[j]).None?
      else addrs != [] && a == addrs[0]
  }

  function Pick(addrs: seq<Bytes>): Option<Bytes> {
    if addrs == [] then None
    else if To4(addrs[0]).Some? then Some(addrs[0])
    else
      match Pick(addrs[1..])
      case Some(a) => Some(if To4(a).Some? then a else addrs[0])
      case None => Some(addrs[0])
  }

  lemma PickStopsAtV4(addrs: seq<Bytes>, i: nat)
    requires i < |addrs| && To4(addrs[i]).Some? && forall j | 0 <= j < i :: To4(addrs[j]).None?
    ensures Pick(addrs) == Some(addrs[i])
  {
    hide To4;
    if i > 0 {
      PickStopsAtV4(addrs[1..], i - 1);
    }
  }

  lemma PickFallsBack(addrs: seq<Bytes>)
    requires addrs != [] && forall a | a in addrs :: To4(a).None?
    ensures Pick(addrs) == Some(addrs[0])
  {
    hide To4;
    if |addrs| > 1 {
      PickFallsBack(addrs[1..]);
    }
  }

  method Prefer(addrs: seq<Bytes>) returns (ip: Option<Bytes>)
    ensures Preferred(addrs, ip) && ip == Pick(addrs)
  {
    ip := None;
    for i := 0 to |addrs|
      invariant ip == if i == 0 then None else Some(addrs[0])
      invariant forall j | 0 <= j < i :: To4(addrs[j]).None?
    {
      if To4(addrs[i]).Some? {
        PickStopsAtV4(addrs, i);
        return Some(addrs[i]);
      }
      if ip.None? {
        ip := Some(addrs[i]);
      }
    }
    if addrs != [] {
      PickFallsBack(addrs);
    }
  }

  // Bytes of a domain name as the characters of a Go string, in lower case.
  function DomainText(name: Bytes): string {
    Lower(seq(|name|, i requires 0 <= i < |name| => name[i] as char))
  }

  datatype Environment = Environment(
    allow: seq<string>, exclude: seq<string>,
    lookup: Bytes -> seq<Bytes>,                      // the resolver's answer for a name
    dial: (Bytes, nat, bool) -> Option<DialError>)    // the error of a dial, if any

  // The response that the request calls for.
  ghost predicate Responds(e: Environment, v: Verdict, r: Response) {
    match v
    case Hangup => r == Silent
    case Refused(code) => r == Reject(code)
    case Associate => r == UdpSession
    case Connect(t, port) =>
      exists ip, domain :: Resolved(e, t, ip, domain) &&
        match ip
        case None => r == Reject(4)
        case Some(a) =>
          var useVPN := UsesVpn(domain, e.allow, e.exclude);
          match e.dial(a, port, useVPN)
          case Some(err) => r == Reject(DialCode(err))
          case None => r == Proxy(a, port, useVPN)
  }

  ghost predicate Resolved(e: Environment, t: Target, ip: Option<Bytes>, domain: string) {
    match t
    case Domain(name) => domain == DomainText(name) && Preferred(e.lookup(name), ip)
    case _ => domain == "" && ip == Some(t.ip)
  }

  method Respond(e: Environment, v: Verdict) returns (r: Response)
    ensures Responds(e, v, r)
  {
    match v
    case Hangup => return Silent;
    case Refused(code) => return Reject(code);
    case Associate => return UdpSession;
    case Connect(t, port) =>
      var ip, domain := None, "";
      if t.Domain? {
        domain := DomainText(t.name);
        ip := Prefer(e.lookup(t.name));
      } else {
        ip := Some(t.ip);
      }
      assert Resolved(e, t, ip, domain);
      if ip.None? {
        return Reject(4);
      }
      var useVPN := Decide(domain, e.allow, e.exclude);
      var err := e.dial(ip.value, port, useVPN);
      if err.Some? {
        return Reject(DialCode(err.value));
      }
      return Proxy(ip.value, port, useVPN);
  }

  // One round of io.Copy: a chunk of at most 32 KiB is read and written, until the source
  // ends or a write fails.
  method CopyChunk(dst: Conn, src: Conn) returns (done: bool, ghost data: Bytes)
    requires dst != src
    modifies dst`sent, dst`writes, src`segments
    ensures data <= old(src.Stream()) && dst.sent == old(dst.sent) + data
    ensures old(dst.Accepting()) ==> dst.Accepting()
    ensures !done ==> src.Stream() == old(src.Stream())[|data|..]
    ensures !done ==> |src.segments| < |old(src.segments)| || (|src.segments| == |old(src.segments)| && data != [])
    ensures done && old(dst.Accepting()) ==> data == old(src.Stream())
  {
    var chunk, eof := src.Read(32768);
    if eof {
      return true, [];
    }
    assert old(src.Stream()) == chunk + src.Stream();
    if |chunk| > 0 {
      var ok := dst.Write(chunk);
      if !ok {
        return true, [];
      }
    }
    return false, chunk;
  }

  // The two goroutines of a relay. Whose turn it is, is anybody's guess; the end of one
  // leaves the other running. Each direction passes on what arrives, in order and
  // unaltered, and all of it if the receiving end accepts.
  method Relay(c: Conn, rc: Conn, turn: nat -> bool)
    requires c != rc
    modifies c, rc
    ensures exists k | 0 <= k <= |old(c.Stream())| :: rc.sent == old(rc.sent) + old(c.Stream())[..k]
    ensures exists k | 0 <= k <= |old(rc.Stream())| :: c.sent == old(c.sent) + old(rc.Stream())[..k]
    ensures old(rc.Accepting()) ==> rc.sent == old(rc.sent) + old(c.Stream())
    ensures old(c.Accepting()) ==> c.sent == old(c.sent) + old(rc.Stream())
  {
    hide Flatten, Conn.Accepting;
    ghost var up, down, i: nat, j: nat := c.Stream(), rc.Stream(), 0, 0;
    assert up[..0] == [] && down[..0] == [];
    var upDone, downDone, n := false, false, 0;
    while !upDone || !downDone
      invariant i <= |up| && rc.sent == old(rc.sent) + up[..i] && (!upDone ==> c.Stream() == up[i..])
      invariant j <= |down| && c.sent == old(c.sent) + down[..j] && (!downDone ==> rc.Stream() == down[j..])
      invariant (old(c.Accepting()) ==> c.Accepting()) && (old(rc.Accepting()) ==> rc.Accepting())
      invariant upDone && old(rc.Accepting()) ==> i == |up|
      invariant downDone && old(c.Accepting()) ==> j == |down|
      decreases !upDone, !downDone,
                if upDone then 0 else |c.segments|, |up| - i,
                if downDone then 0 else |rc.segments|, |down| - j
    {
      ghost var data: Bytes;
      if downDone || (!upDone && turn(n)) {
        upDone, data := CopyChunk(rc, c);
        assert up[..i + |data|] == up[..i] + data;
        i := i + |data|;
      } else {
        downDone, data := CopyChunk(c, rc);
        assert down[..j + |data|] == down[..j] + data;
        j := j + |data|;
      }
      n := n + 1;
    }
    assert up[..|up|] == up && down[..|down|] == down;
  }

  // One client connection from greeting to end of relay. For every stream, every cut into
  // segments and every turn-taking, the remote end receives exactly what follows the request.
  method HandleConn(c: Conn, rc: Conn, e: Environment, turn: nat -> bool) returns (r: Response)
    requires c != rc
    modifies c, rc
    ensures var p := Parse(old(c.Stream()), !c.refuses(old(c.writes))); Responds(e, p.verdict, r)
    ensures var p := Parse(old(c.Stream()), !c.refuses(old(c.writes))); var rest := old(c.Stream())[p.consumed..];
      && (!r.Proxy? ==> rc.sent == old(rc.sent))
      && (r.Proxy? ==> exists k | 0 <= k <= |rest| :: rc.sent == old(rc.sent) + rest[..k])
      && (r.Proxy? && old(c.Accepting() && rc.Accepting()) ==>
            && rc.sent == old(rc.sent) + rest
            && c.sent == old(c.sent) + [5, 0] + Reply(0) + old(rc.Stream()))
      && (r.Reject? && old(c.Accepting()) ==> c.sent == old(c.sent) + [5, 0] + Reply(r.code))
  {
    ghost var s := c.Stream();
    var v := Handshake(c);
    r := Respond(e, v);
    match r
    case Reject(code) =>
      var _ := c.Write(Reply(code));
    case Proxy(_, _, _) =>
      var ok := c.Write(Reply(0));
      if ok {
        Relay(c, rc, turn);
      } else {
        ghost var rest := s[Parse(s, true).consumed..];
        assert rest[..0] == [];
      }
    case _ =>
  }

  // ---------- Where a connection goes ----------

  // A target given as an address is dialled as it is: through the VPN exactly when no
  // allow list is set, and refused only with the code of the dialer's error.
  lemma AddressIsDialled(e: Environment, ip: Bytes, port: nat, r: Response)
    requires Responds(e, Connect(V4(ip), port), r) || Responds(e, Connect(V6(ip), port), r)
    ensures match e.dial(ip, port, e.allow == [])
      case None => r == Proxy(ip, port, e.allow == [])
      case Some(err) => r == Reject(DialCode(err))
  {
  }

  // A name is dialled at its first IPv4 address or else its first address, over the path
  // that the policy has for it, and refused as unreachable if it has none.
  lemma NameIsDialled(e: Environment, name: Bytes, port: nat, r: Response, a: Bytes, i: nat)
    requires Responds(e, Connect(Domain(name), port), r) && i < |e.lookup(name)| && a == e.lookup(name)[i]
    requires if To4(a).Some? then forall j | 0 <= j < i :: To4(e.lookup(name)[j]).None?
             else i == 0 && forall x | x in e.lookup(name) :: To4(x).None?
    ensures var vpn := UsesVpn(DomainText(name), e.allow, e.exclude);
      match e.dial(a, port, vpn)
      case None => r == Proxy(a, port, vpn)
      case Some(err) => r == Reject(DialCode(err))
  {
    forall ip | Preferred(e.lookup(name), ip) ensures ip == Some(a) {
      PreferredIsUnique(e.lookup(name), ip, i);
    }
    hide Preferred, To4, UsesVpn, DomainText;
  }

  lemma PreferredIsUnique(addrs: seq<Bytes>, ip: Option<Bytes>, i: nat)
    requires Preferred(addrs, ip) && i < |addrs|
    requires if To4(addrs[i]).Some? then forall j | 0 <= j < i :: To4(addrs[j]).None?
             else i == 0 && forall x | x in addrs :: To4(x).None?
    ensures ip == Some(addrs[i])
  {
    hide To4;
    assert addrs[i] in addrs;
  }

  lemma UnknownNameIsUnreachable(e: Environment, name: Bytes, port: nat, r: Response)
    requires Responds(e, Connect(Domain(name), port), r) && e.lookup(name) == []
    ensures r == Reject(4)
  {
  }
}
