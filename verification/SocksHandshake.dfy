/** What a SOCKS5 client says before its connection is relayed: the greeting and request of
    sections 3 and 4 of RFC 1928, as the proxy understands them and as a client writes them. */
module SocksHandshake {
  import opened Text
  import opened Inet

  type Bytes = seq<byte>

  function Int(b: byte): nat { b }

  datatype Target = V4(ip: Bytes) | V6(ip: Bytes) | Domain(name: Bytes)

  datatype Verdict =
    | Hangup                // closed without a reply to the request
    | Refused(code: byte)
    | Associate
    | Connect(target: Target, port: nat)

  // The verdict, how much of the stream it took, and whether the greeting was answered.
  datatype Parsed = Parsed(verdict: Verdict, consumed: nat, greeted: bool)

  // ---------- The proxy's reading of the stream ----------

  function Parse(s: Bytes, canGreet: bool): (r: Parsed)
    ensures r.consumed <= |s|
  {
    if |s| < 2 then Parsed(Hangup, |s|, false)
    else if s[0] != 5 then Parsed(Hangup, 2, false)
    else if |s| < 2 + Int(s[1]) then Parsed(Hangup, |s|, false)
    else if !canGreet then Parsed(Hangup, 2 + Int(s[1]), false)
    else ParseRequest(s, 2 + Int(s[1]))
  }

  function ParseRequest(s: Bytes, at: nat): (r: Parsed)
    requires at <= |s|
    ensures r.consumed <= |s| && r.greeted
  {
    if |s| < at + 4 then Parsed(Hangup, |s|, true)
    else if s[at] != 5 then Parsed(Refused(1), at + 4, true)
    else if s[at + 1] == 3 then Parsed(Associate, at + 4, true)
    else if s[at + 1] != 1 then Parsed(Refused(7), at + 4, true)
    else
      match ReadAddress(s[at + 3], s, at + 4)
      case Unknown => Parsed(Refused(8), at + 4, true)
      case Short => Parsed(Hangup, |s|, true)
      case Read(t, next) => ParsePort(s, next, t)
  }

  datatype AddressRead = Unknown | Short | Read(target: Target, next: nat)

  function ReadAddress(atyp: byte, s: Bytes, at: nat): (r: AddressRead)
    requires at <= |s|
    ensures r.Read? ==> at <= r.next <= |s|
  {
    if atyp == 1 then
      if |s| < at + 4 then Short else Read(V4(s[at..at + 4]), at + 4)
    else if atyp == 4 then
      if |s| < at + 16 then Short else Read(V6(s[at..at + 16]), at + 16)
    else if atyp == 3 then
      if |s| < at + 1 || |s| < at + 1 + Int(s[at]) then Short
      else Read(Domain(s[at + 1..at + 1 + Int(s[at])]), at + 1 + Int(s[at]))
    else Unknown
  }

  function ParsePort(s: Bytes, at: nat, t: Target): (r: Parsed)
    requires at <= |s|
    ensures r.consumed <= |s| && r.greeted
  {
    if |s| < at + 2 then Parsed(Hangup, |s|, true)
    else Parsed(Connect(t, Int(s[at]) * 256 + Int(s[at + 1])), at + 2, true)
  }

  // ---------- The client's side ----------

  predicate WellFormed(methods: Bytes, t: Target, port: nat) {
    && |methods| < 256 && port < 0x1_0000
    && match t
       case V4(ip) => |ip| == 4
       case V6(ip) => |ip| == 16
       case Domain(name) => |name| < 256
  }

  function Address(t: Target): Bytes
    requires t.Domain? ==> |t.name| < 256
  {
    match t
    case V4(ip) => ip
    case V6(ip) => ip
    case Domain(name) => [|name|] + name
  }

  function Atyp(t: Target): byte { if t.V4? then 1 else if t.V6? then 4 else 3 }

  function Greeting(methods: Bytes): Bytes
    requires |methods| < 256
  {
    [5, |methods|] + methods
  }

  function Request(rsv: byte, t: Target, port: nat): Bytes
    requires WellFormed([], t, port)
  {
    [5, 1, rsv, Atyp(t)] + Address(t) + [port / 256, port % 256]
  }

  function Encode(methods: Bytes, rsv: byte, t: Target, port: nat): Bytes
    requires WellFormed(methods, t, port)
  {
    Greeting(methods) + Request(rsv, t, port)
  }

  // ---------- The two sides agree ----------

  lemma AddressReads(pre: Bytes, t: Target, rest: Bytes)
    requires WellFormed([], t, 0)
    ensures ReadAddress(Atyp(t), pre + Address(t) + rest, |pre|) == Read(t, |pre| + |Address(t)|)
  {
    var s, a := pre + Address(t) + rest, Address(t);
    assert s[|pre|..|pre| + |a|] == a;
    if t.Domain? {
      assert s[|pre|] == a[0];
      assert s[|pre| + 1..|pre| + |a|] == a[1..];
    }
  }

  lemma PiecesParse(s: Bytes, at: nat, t: Target, port: nat)
    requires |s| >= at + 4 && WellFormed([], t, port)
    requires s[at] == 5 && s[at + 1] == 1 && s[at + 3] == Atyp(t)
    requires var next := at + 4 + |Address(t)|;
      && ReadAddress(Atyp(t), s, at + 4) == Read(t, next)
      && next + 2 <= |s| && s[next] == port / 256 && s[next + 1] == port % 256
    ensures ParseRequest(s, at) == Parsed(Connect(t, port), at + 4 + |Address(t)| + 2, true)
  {
    hide ReadAddress, Address;
    assert ParsePort(s, at + 4 + |Address(t)|, t) == Parsed(Connect(t, port), at + 4 + |Address(t)| + 2, true);
  }

  lemma RequestParses(pre: Bytes, rsv: byte, t: Target, port: nat, rest: Bytes)
    requires WellFormed([], t, port)
    ensures ParseRequest(pre + Request(rsv, t, port) + rest, |pre|)
         == Parsed(Connect(t, port), |pre| + |Request(rsv, t, port)|, true)
  {
    var head, tail: Bytes := [5, 1, rsv, Atyp(t)], [port / 256, port % 256];
    var s, front := pre + Request(rsv, t, port) + rest, pre + head;
    RequestRegroups(pre, rsv, t, port, rest);
    AddressReads(front, t, tail + rest);
    assert |front| == |pre| + 4;
    hide *;
    Lookups(s, pre, head, Address(t), tail, rest);
    PiecesParse(s, |pre|, t, port);
  }

  lemma RequestRegroups(pre: Bytes, rsv: byte, t: Target, port: nat, rest: Bytes)
    requires WellFormed([], t, port)
    ensures |Request(rsv, t, port)| == 4 + |Address(t)| + 2
    ensures pre + Request(rsv, t, port) + rest
         == (pre + [5, 1, rsv, Atyp(t)]) + Address(t) + ([port / 256, port % 256] + rest)
  {
    hide Address;
  }

  lemma Lookups(s: Bytes, pre: Bytes, head: Bytes, a: Bytes, tail: Bytes, rest: Bytes)
    requires s == (pre + head) + a + (tail + rest) && |head| == 4 && |tail| == 2
    ensures var at, next := |pre|, |pre| + 4 + |a|;
      && |s| >= next + 2
      && s[at] == head[0] && s[at + 1] == head[1] && s[at + 2] == head[2] && s[at + 3] == head[3]
      && s[next] == tail[0] && s[next + 1] == tail[1]
  {
  }

  // Whatever the client sends after its request: the proxy understands what was meant, and
  // takes exactly the greeting and the request off the stream.
  lemma EncodedParses(methods: Bytes, rsv: byte, t: Target, port: nat, rest: Bytes)
    requires WellFormed(methods, t, port)
    ensures var e := Encode(methods, rsv, t, port);
      && Parse(e + rest, true) == Parsed(Connect(t, port), |e|, true)
      && |e| == 2 + |methods| + 4 + |Address(t)| + 2
  {
    var e := Encode(methods, rsv, t, port);
    var s := e + rest;
    assert s == Greeting(methods) + Request(rsv, t, port) + rest;
    RequestParses(Greeting(methods), rsv, t, port, rest);
  }

  // Conversely, a stream that is understood as a CONNECT starts with the encoding of it.
  lemma ParsedIsEncoded(s: Bytes)
    requires Parse(s, true).verdict.Connect?
    ensures var p := Parse(s, true); var v := p.verdict;
      exists methods, rsv ::
        WellFormed(methods, v.target, v.port) && s[..p.consumed] == Encode(methods, rsv, v.target, v.port)
  {
    var at := 2 + Int(s[1]);
    RequestReads(s, at);
    var p := Parse(s, true);
    assert p == ParseRequest(s, at) && s[0] == 5 && at <= |s|;
    hide *;
    GreetingReads(s, at);
    assert s[..p.consumed] == s[..at] + s[at..p.consumed];
    EncodeIs(s[2..at], s[at + 2], p.verdict.target, p.verdict.port);
  }

  lemma GreetingReads(s: Bytes, at: nat)
    requires 2 <= at <= |s| && s[0] == 5 && Int(s[1]) == at - 2
    ensures |s[2..at]| < 256 && s[..at] == Greeting(s[2..at])
  {
  }

  lemma EncodeIs(methods: Bytes, rsv: byte, t: Target, port: nat)
    requires |methods| < 256 && WellFormed([], t, port)
    ensures WellFormed(methods, t, port) && Encode(methods, rsv, t, port) == Greeting(methods) + Request(rsv, t, port)
  {
  }

  lemma ReadIsAddress(atyp: byte, s: Bytes, at: nat)
    requires at <= |s| && ReadAddress(atyp, s, at).Read?
    ensures var r := ReadAddress(atyp, s, at);
      WellFormed([], r.target, 0) && Atyp(r.target) == atyp && s[at..r.next] == Address(r.target)
  {
    var r := ReadAddress(atyp, s, at);
    if r.target.Domain? {
      assert s[at..r.next] == [s[at]] + s[at + 1..r.next];
    }
  }

  lemma RequestReads(s: Bytes, at: nat)
    requires at + 4 <= |s| && ParseRequest(s, at).verdict.Connect?
    ensures var p := ParseRequest(s, at); var v := p.verdict;
      && WellFormed([], v.target, v.port) && at <= p.consumed
      && s[at..p.consumed] == Request(s[at + 2], v.target, v.port)
  {
    var p, r := ParseRequest(s, at), ReadAddress(s[at + 3], s, at + 4);
    ReadIsAddress(s[at + 3], s, at + 4);
    hide ReadAddress, Address;
    var port := p.verdict.port;
    assert s[r.next] == port / 256 && s[r.next + 1] == port % 256;
    assert s[at..p.consumed] == s[at..at + 4] + s[at + 4..r.next] + s[r.next..p.consumed];
    assert s[at..at + 4] == [5, 1, s[at + 2], Atyp(r.target)];
    assert s[r.next..p.consumed] == [port / 256, port % 256];
  }

  // ---------- The other verdicts ----------

  // A greeting, the head of a request and whatever follows.
  function Opening(methods: Bytes, ver: byte, cmd: byte, rsv: byte, atyp: byte, rest: Bytes): Bytes
    requires |methods| < 256
  {
    [5, |methods|] + methods + [ver, cmd, rsv, atyp] + rest
  }

  // The head decides: a wrong version, UDP ASSOCIATE, commands other than CONNECT, and
  // unknown address types each have their verdict, and take greeting and head.
  lemma HeadDecides(methods: Bytes, ver: byte, cmd: byte, rsv: byte, atyp: byte, rest: Bytes)
    requires |methods| < 256
    ensures var p, taken := Parse(Opening(methods, ver, cmd, rsv, atyp, rest), true), 2 + |methods| + 4;
      && p.greeted
      && (ver != 5 <==> p == Parsed(Refused(1), taken, true))
      && (ver == 5 && cmd == 3 <==> p == Parsed(Associate, taken, true))
      && (ver == 5 && cmd != 1 && cmd != 3 <==> p == Parsed(Refused(7), taken, true))
      && (ver == 5 && cmd == 1 && atyp != 1 && atyp != 3 && atyp != 4 <==> p == Parsed(Refused(8), taken, true))
  {
    var s, at := Opening(methods, ver, cmd, rsv, atyp, rest), 2 + |methods|;
    assert s[0] == 5 && s[1] == |methods|;
    assert s[at] == ver && s[at + 1] == cmd && s[at + 2] == rsv && s[at + 3] == atyp;
    assert Parse(s, true) == ParseRequest(s, at);
  }

  // Conversely, a stream with one of these verdicts starts with a greeting and a head, and
  // the greeting is answered exactly when it is complete and of version 5.
  lemma VerdictHasHead(s: Bytes)
    ensures var p := Parse(s, true);
      && (p.greeted <==> |s| >= 2 && s[0] == 5 && |s| >= 2 + Int(s[1]))
      && (p.verdict.Refused? || p.verdict.Associate? ==>
            exists methods, ver, cmd, rsv, atyp, rest :: |methods| < 256 && s == Opening(methods, ver, cmd, rsv, atyp, rest))
  {
    var p := Parse(s, true);
    if p.verdict.Refused? || p.verdict.Associate? {
      var at := 2 + Int(s[1]);
      var methods, rest := s[2..at], s[at + 4..];
      assert s == Opening(methods, s[at], s[at + 1], s[at + 2], s[at + 3], rest);
    }
  }

  // A request that is cut short leads to nothing but hanging up.
  lemma CutRequestHangsUp(methods: Bytes, rsv: byte, t: Target, port: nat, n: nat)
    requires WellFormed(methods, t, port) && n < |Encode(methods, rsv, t, port)|
    ensures Parse(Encode(methods, rsv, t, port)[..n], true).verdict == Hangup
  {
    var e := Encode(methods, rsv, t, port);
    var s, at := e[..n], 2 + |methods|;
    EncodedParses(methods, rsv, t, port, []);
    assert e + [] == e;
    assert n >= 1 ==> s[0] == e[0] == 5;
    assert n >= 2 ==> s[1] == e[1] == |methods|;
    if n >= at + 4 {
      HeadBytes(methods, rsv, t, port);
      assert s[at] == e[at] && s[at + 1] == e[at + 1] && s[at + 3] == e[at + 3];
      CutAddress(e, n, at + 4, t);
    }
  }

  lemma HeadBytes(methods: Bytes, rsv: byte, t: Target, port: nat)
    requires WellFormed(methods, t, port)
    ensures var e, at := Encode(methods, rsv, t, port), 2 + |methods|;
      && |e| == at + 4 + |Address(t)| + 2
      && e[at] == 5 && e[at + 1] == 1 && e[at + 3] == Atyp(t)
      && ReadAddress(Atyp(t), e, at + 4) == Read(t, at + 4 + |Address(t)|)
  {
    var e, at, head := Encode(methods, rsv, t, port), 2 + |methods|, [5, 1, rsv, Atyp(t)];
    var pre, tail := Greeting(methods) + head, [port / 256, port % 256];
    assert e == pre + Address(t) + tail;
    AddressReads(pre, t, tail);
    assert pre[at..] == head;
    assert e[at] == head[0] && e[at + 1] == head[1] && e[at + 3] == head[3];
  }

  lemma CutAddress(e: Bytes, n: nat, at: nat, t: Target)
    requires WellFormed([], t, 0) && at <= n < |e| && |e| == at + |Address(t)| + 2
    requires ReadAddress(Atyp(t), e, at) == Read(t, at + |Address(t)|)
    ensures var r := ReadAddress(Atyp(t), e[..n], at); r.Short? || (r.Read? && r.next + 2 > n)
  {
    assert n > at ==> e[..n][at] == e[at];
  }

  // The bytes of three requests, for the record: to 10.0.0.1 port 443, to the name "ab" port
  // 80, and to ::1 port 8080.
  lemma KnownV4Request()
    ensures Encode([0], 0, V4([10, 0, 0, 1]), 443) == [5, 1, 0, 5, 1, 0, 1, 10, 0, 0, 1, 1, 187]
  {
  }

  lemma KnownNameRequest()
    ensures Encode([0], 0, Domain([97, 98]), 80) == [5, 1, 0, 5, 1, 0, 3, 2, 97, 98, 0, 80]
  {
  }

  lemma KnownV6Request()
    ensures Encode([0], 0, V6([0, 0, 0, 0, 0, 0, 0, 0, 0, 0, 0, 0, 0, 0, 0, 1]), 8080)
         == [5, 1, 0, 5, 1, 0, 4, 0, 0, 0, 0, 0, 0, 0, 0, 0, 0, 0, 0, 0, 0, 0, 1, 31, 144]
  {
  }

  // ---------- Replies ----------

  function Reply(code: byte): Bytes { [5, code, 0, 1, 0, 0, 0, 0, 0, 0] }

  datatype DialError = DialError(timeout: bool, errno: Option<Errno>)

  datatype Errno = Refuses | NetUnreachable | HostUnreachable | TimedOut | OtherErrno

  // The reply code of section 6 of RFC 1928 for a failed dial; an errno, where there is a
  // known one, outweighs the timeout flag.
  function DialCode(e: DialError): byte {
    match e.errno
    case Some(Refuses) => 5
    case Some(NetUnreachable) => 3
    case Some(HostUnreachable) => 4
    case Some(TimedOut) => 4
    case _ => if e.timeout then 4 else 1
  }

  // Which failure of a dial each code stands for.
  lemma DialCodeMeans(e: DialError)
    ensures DialCode(e) == 5 <==> e.errno == Some(Refuses)
    ensures DialCode(e) == 3 <==> e.errno == Some(NetUnreachable)
    ensures DialCode(e) == 4 <==>
      e.errno in {Some(HostUnreachable), Some(TimedOut)} || (e.timeout && e.errno in {None, Some(OtherErrno)})
    ensures DialCode(e) == 1 <==> !e.timeout && e.errno in {None, Some(OtherErrno)}
  {
  }

  // A reply has version, code and reserved byte, and names the address 0.0.0.0, port 0.
  lemma ReplyReads(code: byte)
    ensures var r := Reply(code);
      && r[..3] == [5, code, 0] && ReadAddress(r[3], r, 4) == Read(V4([0, 0, 0, 0]), 8) && r[8..] == [0, 0]
  {
    assert Reply(code)[4..8] == [0, 0, 0, 0];
  }
}
