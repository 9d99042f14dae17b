/** The three goroutines of a UDP association: the reader of client datagrams and one sender
    of replies for each outbound socket. They share the atomic pointer to the last client
    address and a channel that holds one address. Every access to either, and every socket
    operation, is a step of its own; any interleaving of the steps is a run. */
module UdpRelay {
  import opened Text
  import opened Inet
  import opened SocksHandshake
  import opened UdpDatagram
  import opened SocksServer
  import opened UdpForward

  type Addr = string

  // A reply that arrived at one of the outbound sockets.
  datatype Packet = Packet(ip: Bytes, port: nat, payload: Bytes)

  predicate Sound(p: Packet) { IsAddress(p.ip) && p.port < 0x1_0000 }

  datatype Reply = Reply(to: Addr, packet: Packet, datagram: Bytes)

  datatype ReaderPc = Reading | Store(from: Addr, data: Bytes) | Offer(from: Addr, data: Bytes) | Forward(data: Bytes)

  // The reader's histories: the source and content of each datagram, and what was forwarded.
  datatype Reader = Reader(pc: ReaderPc, observed: seq<Addr>, heard: seq<Bytes>, forwarded: seq<Outgoing>)

  datatype SenderPc =
    | Waiting
    | Load(p: Packet)
    | Take(p: Packet)                  // the pointer was nil: look into the channel
    | Restore(to: Addr, p: Packet)     // an address was taken: store it in the pointer
    | Answer(to: Addr, p: Packet)

  datatype Sender = Sender(pc: SenderPc, received: seq<Packet>, replies: seq<Reply>, dropped: nat)

  // What the association was opened with: policy and resolver, and the outbound sockets.
  datatype Setting = Setting(env: Environment, sockets: Sockets)

  // stored is the address that the reader stored last, which the pointer should hold.
  datatype System = System(
    last: Option<Addr>, chan: Option<Addr>, stored: Option<Addr>,
    reader: Reader, vpn: Sender, sys: Sender)

  const START := System(None, None, None, Reader(Reading, [], [], []),
                        Sender(Waiting, [], [], 0), Sender(Waiting, [], [], 0))

  datatype Event =
    | ClientSends(from: Addr, data: Bytes)
    | ReaderRuns
    | RemoteSends(vpn: bool, packet: Packet)
    | SenderRuns(vpn: bool)

  // ---------- The steps ----------

  function ReaderStep(c: Setting, s: System): System {
    var r := s.reader;
    match r.pc
    case Reading => s
    case Store(from, data) =>
      s.(last := Some(from), stored := Some(from), reader := r.(pc := Offer(from, data)))
    case Offer(from, data) =>
      s.(chan := if s.chan.None? then Some(from) else s.chan, reader := r.(pc := Forward(data)))
    case Forward(data) =>
      s.(reader := r.(pc := Reading, forwarded := r.forwarded + Sent(c, data)))
  }

  function Sent(c: Setting, data: Bytes): seq<Outgoing> {
    match Forwarded(c.env, c.sockets, data)
    case Some(o) => [o]
    case None => []
  }

  // The state of a sender after its step, given the pointer and the channel.
  function SenderNext(w: Sender, last: Option<Addr>, chan: Option<Addr>): Sender {
    match w.pc
    case Waiting => w
    case Load(p) => w.(pc := if last.Some? then Answer(last.value, p) else Take(p))
    case Take(p) =>
      if chan.Some? then w.(pc := Restore(chan.value, p))
      else w.(pc := Waiting, dropped := w.dropped + 1)
    case Restore(to, p) => w.(pc := Answer(to, p))
    case Answer(to, p) =>
      w.(pc := Waiting,
         replies := w.replies + [Reply(to, p, if Sound(p) then Pack(p.ip, p.port, p.payload) else [])])
  }

  function SenderStep(s: System, vpn: bool): System {
    var w := if vpn then s.vpn else s.sys;
    var n := SenderNext(w, s.last, s.chan);
    s.(last := if w.pc.Restore? then Some(w.pc.to) else s.last,
       chan := if w.pc.Take? then None else s.chan,
       vpn := if vpn then n else s.vpn,
       sys := if vpn then s.sys else n)
  }

  function Arrive(w: Sender, p: Packet): Sender {
    if w.pc == Waiting && Sound(p) then w.(pc := Load(p), received := w.received + [p]) else w
  }

  // A thread that is busy does not read its socket, and a sender without one does not run.
  function Next(c: Setting, s: System, e: Event): System {
    match e
    case ClientSends(from, data) =>
      if s.reader.pc == Reading then
        s.(reader := s.reader.(pc := Store(from, data), observed := s.reader.observed + [from],
                               heard := s.reader.heard + [data]))
      else s
    case ReaderRuns => ReaderStep(c, s)
    case RemoteSends(vpn, p) =>
      if vpn && c.sockets.vpn then s.(vpn := Arrive(s.vpn, p))
      else if !vpn && c.sockets.sys then s.(sys := Arrive(s.sys, p))
      else s
    case SenderRuns(vpn) => SenderStep(s, vpn)
  }

  function Run(c: Setting, s: System, events: seq<Event>): System
    decreases |events|
  {
    if events == [] then s else Run(c, Next(c, s, events[0]), events[1..])
  }

  // ---------- Addresses ----------

  ghost predicate Known(s: System, a: Option<Addr>) { a.Some? ==> a.value in s.reader.observed }

  ghost predicate SenderKnows(s: System, w: Sender) {
    && (w.pc.Restore? || w.pc.Answer? ==> w.pc.to in s.reader.observed)
    && forall r :: r in w.replies ==> r.to in s.reader.observed
  }

  ghost predicate OnlyObserved(s: System) {
    && Known(s, s.last) && Known(s, s.chan) && Known(s, s.stored)
    && (s.reader.pc.Store? || s.reader.pc.Offer? ==> s.reader.pc.from in s.reader.observed)
    && SenderKnows(s, s.vpn) && SenderKnows(s, s.sys)
  }

  lemma ReaderOnlyObserved(c: Setting, s: System, e: Event)
    requires OnlyObserved(s) && (e.ClientSends? || e.ReaderRuns?)
    ensures OnlyObserved(Next(c, s, e))
  {
    hide Sent;
  }

  lemma ArriveOnlyObserved(c: Setting, s: System, e: Event)
    requires OnlyObserved(s) && e.RemoteSends?
    ensures OnlyObserved(Next(c, s, e))
  {
    hide Sound;
  }

  lemma SenderNextKnows(s: System, w: Sender)
    requires SenderKnows(s, w) && Known(s, s.last) && Known(s, s.chan)
    ensures SenderKnows(s, SenderNext(w, s.last, s.chan))
  {
    hide Sound, Pack;
  }

  lemma SenderOnlyObserved(c: Setting, s: System, vpn: bool)
    requires OnlyObserved(s)
    ensures OnlyObserved(Next(c, s, SenderRuns(vpn)))
  {
    SenderNextKnows(s, if vpn then s.vpn else s.sys);
    hide SenderNext, Sound, Pack;
  }

  lemma NextOnlyObserved(c: Setting, s: System, e: Event)
    requires OnlyObserved(s)
    ensures OnlyObserved(Next(c, s, e))
  {
    hide OnlyObserved, Next;
    match e
    case RemoteSends(_, _) => ArriveOnlyObserved(c, s, e);
    case SenderRuns(vpn) => SenderOnlyObserved(c, s, vpn);
    case _ => ReaderOnlyObserved(c, s, e);
  }

  // In every run, the pointer, the channel and every reply that was sent name an address
  // from which a client datagram came before. So nothing is sent to anybody before the
  // first client datagram.
  lemma {:induction false} RepliesGoToObserved(c: Setting, s: System, events: seq<Event>)
    requires OnlyObserved(s)
    ensures OnlyObserved(Run(c, s, events))
    ensures var n := Run(c, s, events);
      n.reader.observed == [] ==> n.vpn.replies == [] && n.sys.replies == [] && n.last.None? && n.chan.None?
    decreases |events|
  {
    if events != [] {
      NextOnlyObserved(c, s, events[0]);
      RepliesGoToObserved(c, Next(c, s, events[0]), events[1..]);
    } else {
      assert s.vpn.replies != [] ==> s.vpn.replies[0].to in s.reader.observed;
      assert s.sys.replies != [] ==> s.sys.replies[0].to in s.reader.observed;
    }
  }

  // ---------- Contents ----------

  function Packets(l: seq<Reply>): (r: seq<Packet>)
    ensures |r| == |l| && forall i :: 0 <= i < |l| ==> r[i] == l[i].packet
  {
    seq(|l|, i requires 0 <= i < |l| => l[i].packet)
  }

  // The packet that a sender is working on.
  function InHand(w: Sender): seq<Packet> { if w.pc == Waiting then [] else [w.pc.p] }

  // A sender answers a subsequence of what its socket received, in order and unaltered,
  // and accounts for the rest.
  ghost predicate Faithful(w: Sender) {
    && Subsequence(Packets(w.replies) + InHand(w), w.received)
    && |w.received| == |w.replies| + w.dropped + |InHand(w)|
    && (forall p :: p in w.received ==> Sound(p))
    && (w.pc != Waiting ==> Sound(w.pc.p))
    && Readable(w.replies)
  }

  // The client reads in each reply where the packet came from and what it holds.
  ghost predicate Readable(replies: seq<Reply>) {
    forall r :: r in replies ==>
      Unpack(r.datagram) == Some(Datagram(if Sound(r.packet) then Source(r.packet.ip) else V4([]),
                                        r.packet.port, r.packet.payload))
  }

  // What the reader sends is what the datagrams it is done with call for, in order.
  function SentFor(c: Setting, l: seq<Bytes>): seq<Outgoing> {
    if l == [] then [] else SentFor(c, l[..|l| - 1]) + Sent(c, l[|l| - 1])
  }

  ghost predicate ReaderFaithful(c: Setting, r: Reader) {
    && |r.observed| == |r.heard|
    && (r.pc.Reading? ==> r.forwarded == SentFor(c, r.heard))
    && (!r.pc.Reading? ==> r.heard != [] && r.pc.data == r.heard[|r.heard| - 1]
                           && r.forwarded == SentFor(c, r.heard[..|r.heard| - 1]))
  }

  lemma SubsequenceGrows<T>(a: seq<T>, b: seq<T>, x: T)
    requires Subsequence(a, b)
    ensures Subsequence(a + [x], b + [x]) && Subsequence(a, b + [x])
  {
    assert (a + [x])[..|a|] == a && (b + [x])[..|b|] == b;
  }

  lemma {:induction false} SubsequenceDrops<T>(a: seq<T>, b: seq<T>, x: T)
    requires Subsequence(a + [x], b)
    ensures Subsequence(a, b)
    decreases |b|
  {
    assert (a + [x])[..|a|] == a;
    var c, last := b[..|b| - 1], b[|b| - 1];
    assert b == c + [last];
    if Subsequence(a + [x], c) {
      SubsequenceDrops(a, c, x);
      SubsequenceGrows(a, c, last);
    } else {
      assert Subsequence(a, c);
      SubsequenceGrows(a, c, last);
    }
  }

  lemma ArriveFaithful(w: Sender, p: Packet)
    requires Faithful(w)
    ensures Faithful(Arrive(w, p))
  {
    hide Subsequence, Readable;
    if w.pc == Waiting && Sound(p) {
      var n := Arrive(w, p);
      assert Packets(w.replies) + InHand(w) == Packets(w.replies);
      SubsequenceGrows(Packets(w.replies), w.received, p);
      assert Packets(n.replies) + InHand(n) == Packets(w.replies) + [p];
    }
  }

  lemma SenderFaithful(w: Sender, last: Option<Addr>, chan: Option<Addr>)
    requires Faithful(w)
    ensures Faithful(SenderNext(w, last, chan))
  {
    var n := SenderNext(w, last, chan);
    match w.pc
    case Take(p) =>
      SubsequenceDrops(Packets(w.replies), w.received, p);
      assert chan.None? ==> Packets(n.replies) + InHand(n) == Packets(w.replies);
      assert chan.Some? ==> Packets(n.replies) + InHand(n) == Packets(w.replies) + InHand(w);
    case Answer(to, p) =>
      WrittenReads(p.ip, p.port, p.payload);
      assert Packets(n.replies) + InHand(n) == Packets(w.replies) + InHand(w);
    case _ =>
      assert InHand(n) == InHand(w);
  }

  lemma ReaderStaysFaithful(c: Setting, s: System, e: Event)
    requires ReaderFaithful(c, s.reader)
    ensures ReaderFaithful(c, Next(c, s, e).reader)
  {
    if e.ClientSends? && s.reader.pc == Reading {
      assert (s.reader.heard + [e.data])[..|s.reader.heard|] == s.reader.heard;
    }
  }

  lemma SendersStayFaithful(c: Setting, s: System, e: Event)
    requires Faithful(s.vpn) && Faithful(s.sys)
    ensures var n := Next(c, s, e); Faithful(n.vpn) && Faithful(n.sys)
  {
    hide Faithful, Forwarded, Arrive, SenderNext;
    if e.RemoteSends? {
      ArriveFaithful(s.vpn, e.packet);
      ArriveFaithful(s.sys, e.packet);
    } else if e.SenderRuns? {
      SenderFaithful(s.vpn, s.last, s.chan);
      SenderFaithful(s.sys, s.last, s.chan);
    }
  }

  // In every run, replies carry exactly what the outbound sockets received, readable by
  // the client, and client datagrams are sent on as they read: to the resolved target,
  // over the path that the policy chooses, and not at all where there is none.
  lemma {:induction false} ContentsAreFaithful(c: Setting, s: System, events: seq<Event>)
    requires Faithful(s.vpn) && Faithful(s.sys) && ReaderFaithful(c, s.reader)
    ensures var n := Run(c, s, events); Faithful(n.vpn) && Faithful(n.sys) && ReaderFaithful(c, n.reader)
    decreases |events|
  {
    hide Faithful, ReaderFaithful, Next;
    if events != [] {
      ReaderStaysFaithful(c, s, events[0]);
      SendersStayFaithful(c, s, events[0]);
      ContentsAreFaithful(c, Next(c, s, events[0]), events[1..]);
    }
  }

  lemma StartIsSound(c: Setting)
    ensures OnlyObserved(START) && Faithful(START.vpn) && Faithful(START.sys) && ReaderFaithful(c, START.reader)
  {
  }

  // Every run of an association, from its start.
  lemma EveryRunIsSound(c: Setting, events: seq<Event>)
    ensures var n := Run(c, START, events);
      && OnlyObserved(n) && Faithful(n.vpn) && Faithful(n.sys) && ReaderFaithful(c, n.reader)
      && (n.reader.observed == [] ==> n.vpn.replies == [] && n.sys.replies == [])
  {
    StartIsSound(c);
    hide OnlyObserved, Faithful, ReaderFaithful, Run;
    RepliesGoToObserved(c, START, events);
    ContentsAreFaithful(c, START, events);
  }

  // ---------- The latest address ----------

  // The pointer is set and no sender is still on the way to overwrite it.
  ghost predicate Settled(s: System) {
    && s.last.Some?
    && !s.vpn.pc.Take? && !s.vpn.pc.Restore? && !s.sys.pc.Take? && !s.sys.pc.Restore?
  }

  // Once settled, always settled; and from the reader's next store on, the pointer is the
  // address that the reader stored last.
  lemma {:induction false} SettledFollowsReader(c: Setting, s: System, events: seq<Event>)
    requires Settled(s)
    ensures var n := Run(c, s, events);
      && Settled(n)
      && (s.last == s.stored ==> n.last == n.stored)
      && (n.stored != s.stored ==> n.last == n.stored)
    decreases |events|
  {
    if events != [] {
      hide Forwarded;
      SettledFollowsReader(c, Next(c, s, events[0]), events[1..]);
    }
  }

  // So in every continuation of a settled state whose pointer is the latest address, a
  // reply that a sender begins goes to the address that is the latest one then.
  lemma RepliesGoToLatest(c: Setting, s: System, events: seq<Event>, vpn: bool)
    requires Settled(s) && s.last == s.stored
    ensures var n := Run(c, s, events); var w := SenderOf(n, vpn);
      w.pc.Load? ==> n.stored.Some? && SenderOf(Next(c, n, SenderRuns(vpn)), vpn).pc == Answer(n.stored.value, w.pc.p)
  {
    SettledFollowsReader(c, s, events);
    hide Run;
  }

  // ---------- What is dropped and what is answered ----------

  // A packet is dropped only when neither the pointer nor the channel has an address.
  lemma DropsOnlyWithoutAddress(c: Setting, s: System, e: Event, vpn: bool)
    ensures var w, n := SenderOf(s, vpn), SenderOf(Next(c, s, e), vpn);
      n.dropped != w.dropped <==> e == SenderRuns(vpn) && w.pc.Take? && s.chan.None?
    ensures SenderOf(s, vpn).pc.Take? && s.chan.None? ==>
      SenderOf(Next(c, s, SenderRuns(vpn)), vpn) == SenderOf(s, vpn).(pc := Waiting, dropped := SenderOf(s, vpn).dropped + 1)
    ensures SenderOf(s, vpn).pc.Load? && s.last.None? ==> SenderOf(Next(c, s, SenderRuns(vpn)), vpn).pc.Take?
  {
    hide Forwarded, Sound, Pack;
  }

  // What a sender has answered or has in hand.
  function Handled(w: Sender): seq<Packet> { Packets(w.replies) + InHand(w) }

  // Between the two states nothing was dropped, and all that arrived is handled, in order.
  ghost predicate HandlesAll(w: Sender, n: Sender) {
    && n.dropped == w.dropped && |w.received| <= |n.received| && n.received[..|w.received|] == w.received
    && Handled(n) == Handled(w) + n.received[|w.received|..]
  }

  lemma HandlesAllOn(a: Sender, b: Sender, c: Sender)
    requires HandlesAll(a, b) && HandlesAll(b, c)
    ensures HandlesAll(a, c)
  {
    var i, j := |a.received|, |b.received|;
    assert c.received[i..] == c.received[..j][i..] + c.received[j..];
    assert c.received[..i] == c.received[..j][..i];
    hide Handled;
  }

  lemma ArriveHandles(w: Sender, p: Packet)
    ensures HandlesAll(w, Arrive(w, p))
  {
    hide Sound;
    var n := Arrive(w, p);
    if n != w {
      assert n.received[|w.received|..] == [p];
    } else {
      assert Handled(w) + w.received[|w.received|..] == Handled(w);
    }
  }

  lemma StepHandles(w: Sender, last: Option<Addr>, chan: Option<Addr>)
    requires last.Some? && !w.pc.Take?
    ensures HandlesAll(w, SenderNext(w, last, chan))
  {
    hide Sound, Pack;
    var n := SenderNext(w, last, chan);
    assert w.received[|w.received|..] == [];
    if w.pc.Answer? {
      assert Packets(n.replies) == Packets(w.replies) + [w.pc.p];
    }
  }

  lemma SettledStep(c: Setting, s: System, e: Event, vpn: bool)
    requires Settled(s)
    ensures Settled(Next(c, s, e)) && HandlesAll(SenderOf(s, vpn), SenderOf(Next(c, s, e), vpn))
  {
    hide Forwarded, HandlesAll, Sound, Pack;
    var w := SenderOf(s, vpn);
    SameHandles(w);
    StepHandles(w, s.last, s.chan);
    if e.RemoteSends? {
      ArriveHandles(w, e.packet);
    }
  }

  lemma SameHandles(w: Sender)
    ensures HandlesAll(w, w)
  {
    assert Handled(w) + w.received[|w.received|..] == Handled(w);
  }

  // From a settled state on, no packet is dropped: all that arrives is answered or in
  // hand, in order.
  lemma {:induction false} SettledHandlesAll(c: Setting, s: System, events: seq<Event>, vpn: bool)
    requires Settled(s)
    ensures HandlesAll(SenderOf(s, vpn), SenderOf(Run(c, s, events), vpn))
    decreases |events|
  {
    hide HandlesAll, Settled, Next;
    if events == [] {
      SameHandles(SenderOf(s, vpn));
    } else {
      var n := Next(c, s, events[0]);
      SettledStep(c, s, events[0], vpn);
      SettledHandlesAll(c, n, events[1..], vpn);
      HandlesAllOn(SenderOf(s, vpn), SenderOf(n, vpn), SenderOf(Run(c, s, events), vpn));
    }
  }

  // And what is in hand is answered when the sender runs: to the pointer's address, with
  // the packet's source and content.
  lemma SettledAnswers(c: Setting, s: System, p: Packet, vpn: bool)
    requires Settled(s) && SenderOf(s, vpn).pc == Waiting && Sound(p) && HasSocket(c, vpn)
    ensures var n := Next(c, Next(c, Next(c, s, RemoteSends(vpn, p)), SenderRuns(vpn)), SenderRuns(vpn));
      var w := SenderOf(n, vpn);
      && w.pc == Waiting
      && w.replies == SenderOf(s, vpn).replies + [Reply(s.last.value, p, w.replies[|w.replies| - 1].datagram)]
      && Unpack(w.replies[|w.replies| - 1].datagram) == Some(Datagram(Source(p.ip), p.port, p.payload))
  {
    WrittenReads(p.ip, p.port, p.payload);
    hide Forwarded, Pack, Unpack;
  }

  // A client datagram goes through the reader: the pointer is its source, and what it calls
  // for is sent.
  lemma ReaderHandles(c: Setting, s: System, from: Addr, data: Bytes)
    requires s.reader.pc == Reading
    ensures var n := Next(c, Next(c, Next(c, Next(c, s, ClientSends(from, data)), ReaderRuns), ReaderRuns), ReaderRuns);
      && n.reader.pc == Reading && n.last == n.stored == Some(from)
      && n.reader.forwarded == s.reader.forwarded +
           (match Forwarded(c.env, c.sockets, data) case Some(o) => [o] case None => [])
      && n.vpn == s.vpn && n.sys == s.sys && n.chan.Some?
  {
    hide Forwarded;
  }

  ghost predicate Reaches(c: Setting, s: System, n: System) { exists events :: Run(c, s, events) == n }

  lemma {:induction false} RunOneMore(c: Setting, s: System, events: seq<Event>, e: Event)
    ensures Run(c, s, events + [e]) == Next(c, Run(c, s, events), e)
    decreases |events|
  {
    hide Next;
    if events == [] {
      assert [e][1..] == [];
    } else {
      RunOneMore(c, Next(c, s, events[0]), events[1..], e);
      assert (events + [e])[1..] == events[1..] + [e];
    }
  }

  lemma Here(c: Setting, s: System)
    ensures Reaches(c, s, s)
  {
    assert Run(c, s, []) == s;
  }

  lemma Step(c: Setting, s: System, n: System, e: Event)
    requires Reaches(c, s, n)
    ensures Reaches(c, s, Next(c, n, e))
  {
    var events :| Run(c, s, events) == n;
    RunOneMore(c, s, events, e);
  }

  function SenderOf(s: System, vpn: bool): Sender { if vpn then s.vpn else s.sys }

  predicate HasSocket(c: Setting, vpn: bool) { if vpn then c.sockets.vpn else c.sockets.sys }

  // The reader finishes the datagram that it is working on.
  lemma ReaderFinishes(c: Setting, s: System, n: System) returns (r: System)
    requires Reaches(c, s, n)
    ensures Reaches(c, s, r) && r.reader.pc == Reading && r.vpn == n.vpn && r.sys == n.sys
    ensures n.chan.Some? ==> r.chan.Some?
  {
    hide Forwarded;
    r := n;
    while r.reader.pc != Reading
      invariant Reaches(c, s, r) && r.vpn == n.vpn && r.sys == n.sys
      invariant n.chan.Some? ==> r.chan.Some?
      decreases match r.reader.pc
        case Reading => 0
        case Forward(_) => 1
        case Offer(_, _) => 2
        case Store(_, _) => 3
    {
      Step(c, s, r, ReaderRuns);
      r := Next(c, r, ReaderRuns);
    }
  }

  // One client datagram without content runs through the reader.
  lemma ClientTurn(c: Setting, s: System, n: System, from: Addr)
    requires Reaches(c, s, n) && n.reader.pc == Reading
    ensures Reaches(c, s, n.(last := Some(from), stored := Some(from),
                             chan := if n.chan.None? then Some(from) else n.chan,
                             reader := n.reader.(observed := n.reader.observed + [from],
                                                 heard := n.reader.heard + [[]])))
  {
    var s1 := Next(c, n, ClientSends(from, []));
    Step(c, s, n, ClientSends(from, []));
    Step(c, s, s1, ReaderRuns);
    var s2 := Next(c, s1, ReaderRuns);
    Step(c, s, s2, ReaderRuns);
    var s3 := Next(c, s2, ReaderRuns);
    Step(c, s, s3, ReaderRuns);
    assert Next(c, s3, ReaderRuns).reader.forwarded == n.reader.forwarded;
  }

  // A sender with an address in hand stores it after the reader has stored a newer one.
  lemma RestoreLoses(c: Setting, s: System, n: System, vpn: bool) returns (r: System)
    requires Reaches(c, s, n) && SenderOf(n, vpn).pc.Restore?
    ensures Reaches(c, s, r) && r.last != r.stored
  {
    var to := SenderOf(n, vpn).pc.to;
    var q := ReaderFinishes(c, s, n);
    hide Forwarded;
    ClientTurn(c, s, q, to + "'");
    r := q.(last := Some(to + "'"), stored := Some(to + "'"),
            chan := if q.chan.None? then Some(to + "'") else q.chan,
            reader := q.reader.(observed := q.reader.observed + [to + "'"], heard := q.reader.heard + [[]]));
    Step(c, s, r, SenderRuns(vpn));
    r := Next(c, r, SenderRuns(vpn));
    assert r.last == Some(to) && r.stored == Some(to + "'") && |to + "'"| != |to|;
  }

  // A sender that found no pointer takes an address once there is one.
  lemma TakeLoses(c: Setting, s: System, n: System, vpn: bool) returns (r: System)
    requires Reaches(c, s, n) && SenderOf(n, vpn).pc.Take?
    ensures Reaches(c, s, r) && r.last != r.stored
  {
    hide Forwarded;
    r := ReaderFinishes(c, s, n);
    ClientTurn(c, s, r, "");
    r := r.(last := Some(""), stored := Some(""), chan := if r.chan.None? then Some("") else r.chan,
            reader := r.reader.(observed := r.reader.observed + [""], heard := r.reader.heard + [[]]));
    Step(c, s, r, SenderRuns(vpn));
    r := Next(c, r, SenderRuns(vpn));
    r := RestoreLoses(c, s, r, vpn);
  }

  const HELLO := Packet([127, 0, 0, 1], 53, [])

  // While the pointer is unset, a sender with a socket can be made to look for an address.
  lemma UnsetLoses(c: Setting, s: System, n: System, vpn: bool) returns (r: System)
    requires Reaches(c, s, n) && n.last.None? && HasSocket(c, vpn)
    ensures Reaches(c, s, r) && r.last != r.stored
  {
    hide Forwarded;
    r := n;
    if SenderOf(r, vpn).pc.Restore? {
      r := RestoreLoses(c, s, r, vpn);
      return;
    }
    if SenderOf(r, vpn).pc.Answer? {
      Step(c, s, r, SenderRuns(vpn));
      r := Next(c, r, SenderRuns(vpn));
    }
    if SenderOf(r, vpn).pc.Waiting? {
      Step(c, s, r, RemoteSends(vpn, HELLO));
      r := Next(c, r, RemoteSends(vpn, HELLO));
    }
    if SenderOf(r, vpn).pc.Load? {
      Step(c, s, r, SenderRuns(vpn));
      r := Next(c, r, SenderRuns(vpn));
    }
    r := TakeLoses(c, s, r, vpn);
  }

  lemma UnsettledLoses(c: Setting, s: System) returns (r: System)
    requires !Settled(s) && (c.sockets.vpn || c.sockets.sys)
    ensures Reaches(c, s, r) && r.last != r.stored
  {
    Here(c, s);
    if s.vpn.pc.Restore? {
      r := RestoreLoses(c, s, s, true);
    } else if s.sys.pc.Restore? {
      r := RestoreLoses(c, s, s, false);
    } else if s.vpn.pc.Take? {
      r := TakeLoses(c, s, s, true);
    } else if s.sys.pc.Take? {
      r := TakeLoses(c, s, s, false);
    } else {
      r := UnsetLoses(c, s, s, c.sockets.vpn);
    }
  }

  // From a state in which the pointer is the address stored last, no continuation ever
  // makes it another one, exactly when the state is settled.
  lemma LatestIsKeptIff(c: Setting, s: System)
    requires s.last == s.stored && (c.sockets.vpn || c.sockets.sys)
    ensures (forall events :: Run(c, s, events).last == Run(c, s, events).stored) <==> Settled(s)
  {
    if Settled(s) {
      forall events ensures Run(c, s, events).last == Run(c, s, events).stored {
        SettledFollowsReader(c, s, events);
      }
    } else {
      var r := UnsettledLoses(c, s);
      var events :| Run(c, s, events) == r;
      assert Run(c, s, events).last != Run(c, s, events).stored;
    }
  }

  // From the very start: a reply goes to an older address than the latest one, and so
  // would the next replies.
  lemma LatestCanBeLost(c: Setting, older: Addr, newer: Addr, p: Packet)
    requires Sound(p) && c.sockets.vpn
    ensures exists s ::
      && Reaches(c, START, s)
      && s.reader.observed == [older, newer] && s.stored == Some(newer) && s.last == Some(older)
      && |s.vpn.replies| == 1 && s.vpn.replies[0].to == older
  {
    hide Forwarded;
    Here(c, START);
    var loaded := START.(vpn := Sender(Load(p), [p], [], 0));
    Step(c, START, START, RemoteSends(true, p));
    var empty := START.(vpn := Sender(Take(p), [p], [], 0));  // the pointer was nil
    Step(c, START, loaded, SenderRuns(true));
    ClientTurn(c, START, empty, older);                       // the channel is filled
    var first := empty.(last := Some(older), stored := Some(older), chan := Some(older),
                        reader := Reader(Reading, [older], [[]], []));
    ClientTurn(c, START, first, newer);                       // only the pointer moves on
    var second := first.(last := Some(newer), stored := Some(newer),
                         reader := Reader(Reading, [older, newer], [[], []], []));
    StaleAnswer(c, second, older, p);
  }

  lemma StaleAnswer(c: Setting, s: System, older: Addr, p: Packet)
    requires Reaches(c, START, s) && s.chan == Some(older) && s.vpn == Sender(Take(p), [p], [], 0)
    ensures exists n ::
      && Reaches(c, START, n) && n.reader == s.reader && n.stored == s.stored
      && n.last == Some(older) && |n.vpn.replies| == 1 && n.vpn.replies[0].to == older
  {
    hide Forwarded;
    var n1 := Next(c, s, SenderRuns(true));
    var n2 := Next(c, n1, SenderRuns(true));
    var n3 := Next(c, n2, SenderRuns(true));
    Step(c, START, s, SenderRuns(true));
    Step(c, START, n1, SenderRuns(true));
    Step(c, START, n2, SenderRuns(true));
    assert Reaches(c, START, n3) && n3.last == Some(older);
  }
}
