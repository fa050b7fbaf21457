/** What the session of one connection has been through, taken from the events of the whole table. */
module SessionHistory {
  import opened Wrappers
  import opened Words
  import opened SessionModel
  import opened SessionRuns
  import opened SessionPlaces
  import M = TcpModel
  import D = DnsResponse
  import U = Udp
  import TcpDownstream
  import TcpUpstream
  import UdpDelivery

  /** No session of a connection, or one that was registered for a SYN or for a datagram, and took these steps. */
  datatype Life =
    | NoLife
    | TcpLife(b: Birth, steps: seq<M.Event>)
    | UdpLife(start: int, datagrams: seq<U.Event>)

  function Start(b: Birth): M.Machine {
    M.NewSession(b.p, b.mss, b.ws, b.isn, b.now, b.kernel)
  }

  function UdpStart(c: Connection, start: int): U.Machine {
    U.NewSession(c.key.version, c.key.dest, start)
  }

  function Now(l: Life, c: Connection, policy: D.Policy): Option<Session> {
    match l
    case NoLife => None
    case TcpLife(b, steps) => Some(TcpSession(c.key, M.Run(Start(b), steps)))
    case UdpLife(start, datagrams) => Some(UdpSession(c.key, U.Run(UdpStart(c, start), datagrams, policy)))
  }

  /** One step of a session. */
  datatype Happening = TcpStep(tcp: M.Event) | UdpStep(udp: U.Event)

  /** What the event e does to the session of the TCP connection, which stands at position i of the list. */
  function HappensTcp(ss: seq<Session>, i: nat, e: Event, key: Key, policy: D.Policy): Option<M.Event>
    requires i < |ss|
  {
    match e
    case TcpPacket(k, p, now, ok, _) => if k == key then Some(M.FromTun(p, now, ok)) else None
    case TcpSocket(j, ev) => if j == i then Some(M.FromSocket(LookedAt(ev, key, policy))) else None
    case Monitor(ms, polls) =>
      if |polls| == |ss| then Some(M.Monitor(ms, polls[i].kernel, polls[i].ctlOk, polls[i].ok)) else None
    case Sweep(clock, load, oks) =>
      if |oks| == |ss| then Some(M.Sweep(clock, Timeout(ss[i], load), oks[i])) else None
    case CheckAllowed(verdicts) =>
      if |verdicts| == |ss| && !verdicts[i].allowed then Some(M.Disallow(verdicts[i].ok)) else None
    case _ => None
  }

  /** The same for a UDP connection. */
  function HappensUdp(ss: seq<Session>, i: nat, e: Event, key: Key): Option<U.Event>
    requires i < |ss|
  {
    match e
    case UdpPacket(k, data, now, dhcp, sendto, _) => if k == key then Some(U.FromTun(data, now, dhcp, sendto)) else None
    case UdpSocket(j, ev) => if j == i && (ev.SocketError? || ev.Readable?) then Some(ev) else None
    case Sweep(clock, load, oks) => if |oks| == |ss| then Some(U.Sweep(clock, Timeout(ss[i], load))) else None
    case CheckAllowed(verdicts) => if |verdicts| == |ss| && !verdicts[i].allowed then Some(U.Disallow) else None
    case _ => None
  }

  function Happens(ss: seq<Session>, i: nat, e: Event, c: Connection, policy: D.Policy): Option<Happening>
    requires i < |ss|
  {
    if c.Tcp? then
      var h := HappensTcp(ss, i, e, c.key, policy);
      if h.Some? then Some(TcpStep(h.value)) else None
    else
      var h := HappensUdp(ss, i, e, c.key);
      if h.Some? then Some(UdpStep(h.value)) else None
  }

  /** The sweep frees the session, or the permission check removes it. */
  predicate Ends(ss: seq<Session>, i: nat, e: Event)
    requires i < |ss|
  {
    || (e.Sweep? && |e.oks| == |ss| && Check(ss[i], e.clock, e.load, e.oks[i]).1)
    || (e.CheckAllowed? && |e.verdicts| == |ss| && ss[i].UdpSession? && ss[i].udp.u.state.Blocked?)
  }

  function BirthOf(e: Event): Birth
    requires e.TcpPacket?
  {
    Birth(e.p, e.opening.mss, e.opening.ws, e.opening.isn, e.now, e.opening.kernel)
  }

  /** What e makes of a connection without a session: a SYN opens one, and so does a datagram, which it also carries. */
  function Opened(e: Event, c: Connection): Life {
    match e
    case TcpPacket(key, p, _, _, opening) =>
      if c == Tcp(key) && !p.urg && p.syn && opening.opens then TcpLife(BirthOf(e), []) else NoLife
    case UdpPacket(key, data, now, dhcp, sendto, opens) =>
      if c == Udp(key) && opens then UdpLife(now, [U.FromTun(data, now, dhcp, sendto)]) else NoLife
    case _ => NoLife
  }

  function Lengthened(l: Life, h: Happening): Life {
    if l.TcpLife? && h.TcpStep? then l.(steps := l.steps + [h.tcp])
    else if l.UdpLife? && h.UdpStep? then l.(datagrams := l.datagrams + [h.udp])
    else l
  }

  /** The life of the connection after the event. */
  function Lives(l: Life, ss: seq<Session>, e: Event, c: Connection, policy: D.Policy): Life {
    var i := Place(ss, c);
    if l.NoLife? || i == |ss| then Opened(e, c)
    else if Ends(ss, i, e) then NoLife
    else
      match Happens(ss, i, e, c, policy)
      case None => l
      case Some(h) => Lengthened(l, h)
  }

  /** The history of a connection over a run of the table: its last registration, and every step since. */
  function History(es: seq<Event>, c: Connection, policy: D.Policy): Life {
    if es == [] then NoLife
    else
      var n := |es| - 1;
      Lives(History(es[..n], c, policy), Run([], es[..n], policy), es[n], c, policy)
  }

  // ---- One event ----

  function Stepped(s: Session, h: Happening, policy: D.Policy): Session {
    if s.TcpSession? && h.TcpStep? then TcpSession(s.key, M.Step(s.tcp, h.tcp))
    else if s.UdpSession? && h.UdpStep? then UdpSession(s.key, U.Step(s.udp, h.udp, policy))
    else s
  }

  /** The session of the connection after the event. */
  function Next(ss: seq<Session>, e: Event, c: Connection, policy: D.Policy): Option<Session> {
    var i := Place(ss, c);
    if i == |ss| then Now(Opened(e, c), c, policy)
    else if Ends(ss, i, e) then None
    else
      match Happens(ss, i, e, c, policy)
      case None => Some(ss[i])
      case Some(h) => Some(Stepped(ss[i], h, policy))
  }

  lemma RunNothing(e: Event)
    requires e.TcpPacket?
    ensures M.Run(Start(BirthOf(e)), []) == Start(BirthOf(e))
  {
  }

  lemma RunOne(m: U.Machine, e: U.Event, policy: D.Policy)
    ensures U.Run(m, [e], policy) == U.Step(m, e, policy)
  {
    hide U.Step;
    assert [e][1..] == [];
    assert U.Run(U.Step(m, e, policy), [], policy) == U.Step(m, e, policy);
  }

  lemma KindOf(key: Key, c: Connection)
    ensures forall s :: (Belongs(s, Tcp(key)) <==> IsTcp(s, key)) && (Belongs(s, Udp(key)) <==> IsUdp(s, key))
    ensures forall m :: Belongs(TcpSession(key, m), c) <==> c == Tcp(key)
    ensures forall m :: Belongs(UdpSession(key, m), c) <==> c == Udp(key)
  {
  }

  lemma FoundAt(ss: seq<Session>, c: Connection)
    ensures Find(ss, c) == if Place(ss, c) < |ss| then Some(ss[Place(ss, c)]) else None
  {
  }

  lemma TcpPacketNext(ss: seq<Session>, e: Event, c: Connection, policy: D.Policy)
    requires e.TcpPacket?
    ensures Find(SessionRuns.TcpStep(ss, e.key, e.p, e.now, e.ok, e.opening), c) == Next(ss, e, c, policy)
  {
    hide M.HandleTcp, M.NewSession, M.Run, Place, Check, Timeout, UdpStart, Find, Belongs;
    var j := Search(ss, s => IsTcp(s, e.key));
    KindOf(e.key, c);
    FoundAt(ss, c);
    PlaceIs(ss, Tcp(e.key), j);
    RunNothing(e);
    if j < |ss| {
      FindUpdated(ss, j, TcpSession(e.key, M.HandleTcp(ss[j].tcp, e.p, e.now, e.ok)), c);
    } else if !e.p.urg && e.p.syn && e.opening.opens {
      FindPushed(ss, TcpSession(e.key, Start(BirthOf(e))), c);
    }
  }

  lemma UdpPacketNext(ss: seq<Session>, e: Event, c: Connection, policy: D.Policy)
    requires e.UdpPacket?
    ensures Find(SessionRuns.UdpStep(ss, e.key, e.data, e.now, e.dhcp, e.sendto, e.opens), c) == Next(ss, e, c, policy)
  {
    hide U.HandleUdp, U.NewSession, U.Run, Place, Check, Timeout, Start, Find, Belongs;
    KindOf(e.key, c);
    FoundAt(ss, c);
    var j := Search(ss, s => IsUdp(s, e.key));
    PlaceIs(ss, Udp(e.key), j);
    if j < |ss| {
      FindUpdated(ss, j, UdpSession(e.key, U.HandleUdp(ss[j].udp, e.data, e.now, e.dhcp, e.sendto)), c);
    } else if e.opens {
      var m0 := U.NewSession(e.key.version, e.key.dest, e.now);
      RunOne(m0, U.FromTun(e.data, e.now, e.dhcp, e.sendto), policy);
      FindPushed(ss, UdpSession(e.key, U.HandleUdp(m0, e.data, e.now, e.dhcp, e.sendto)), c);
    }
  }

  lemma IcmpPacketNext(ss: seq<Session>, e: Event, c: Connection, policy: D.Policy)
    requires e.IcmpPacket?
    ensures Find(IcmpStep(ss, e.version, e.saddr, e.daddr, e.now, e.opens, e.broken), c) == Next(ss, e, c, policy)
  {
    hide Place;
    var j := Search(ss, s => IsIcmp(s, e.version, e.saddr, e.daddr));
    if j < |ss| {
      FindUpdated(ss, j, IcmpSession(ss[j].icmp.(time := e.now, stop := e.broken)), c);
    } else if e.opens {
      FindPushed(ss, IcmpSession(Icmp(e.version, e.saddr, e.daddr, e.broken, true, e.now)), c);
    }
  }

  lemma SocketNext(ss: seq<Session>, e: Event, c: Connection, policy: D.Policy)
    requires AtMostOne(ss, c) && (e.TcpSocket? || e.UdpSocket? || e.IcmpSocket?)
    ensures Find(Step(ss, e, policy), c) == Next(ss, e, c, policy)
  {
    hide M.Step, U.Step, Place, AtMostOne;
    match e
    case TcpSocket(j, ev) =>
      if j < |ss| && ss[j].TcpSession? {
        OnlyAt(ss, c, j);
        var h := M.FromSocket(LookedAt(ev, ss[j].key, policy));
        FindUpdated(ss, j, TcpSession(ss[j].key, M.Step(ss[j].tcp, h)), c);
      }
    case UdpSocket(j, ev) =>
      if j < |ss| && ss[j].UdpSession? && (ev.SocketError? || ev.Readable?) {
        OnlyAt(ss, c, j);
        FindUpdated(ss, j, UdpSession(ss[j].key, U.Step(ss[j].udp, ev, policy)), c);
      }
    case IcmpSocket(j, stop, time) =>
      if j < |ss| && ss[j].IcmpSession? {
        FindUpdated(ss, j, IcmpSession(ss[j].icmp.(time := time, stop := ss[j].icmp.stop || stop)), c);
      }
  }

  lemma MonitorNext(ss: seq<Session>, e: Event, c: Connection, policy: D.Policy)
    requires e.Monitor? && |e.polls| == |ss|
    ensures Find(Watched(ss, e.ms, e.polls), c) == Next(ss, e, c, policy)
  {
    hide M.MonitorTcp, Place;
    PlaceIs(Watched(ss, e.ms, e.polls), c, Place(ss, c));
  }

  lemma SweepNext(ss: seq<Session>, e: Event, c: Connection, policy: D.Policy)
    requires AtMostOne(ss, c) && e.Sweep? && |e.oks| == |ss|
    ensures Find(Swept(ss, e.clock, e.load, e.oks), c) == Next(ss, e, c, policy)
  {
    hide M.CheckTcpSession, U.CheckUdpSession, Timeout, Place, Swept, AtMostOne;
    var r := Swept(ss, e.clock, e.load, e.oks);
    var p := SweepIsFilter(ss, e.clock, e.load, e.oks);
    var k := FindPicked(ss, r, p, c);
  }

  lemma CheckAllowedNext(ss: seq<Session>, e: Event, c: Connection, policy: D.Policy)
    requires AtMostOne(ss, c) && e.CheckAllowed? && |e.verdicts| == |ss|
    ensures Find(Somes(Judged(ss, e.verdicts)), c) == Next(ss, e, c, policy)
  {
    hide M.DisallowTcp, U.DisallowUdp, Place, Somes, AtMostOne;
    var os := Judged(ss, e.verdicts);
    var r := Somes(os);
    var p := SomesInOrder(os);
    forall k | 0 <= k < |p| ensures p[k] < |ss| && (Belongs(r[k], c) <==> Belongs(ss[p[k]], c)) {
      assert os[p[k]] == Judge(ss[p[k]], e.verdicts[p[k]]) == Some(r[k]);
    }
    var k := FindPicked(ss, r, p, c);
  }

  lemma StepNext(ss: seq<Session>, e: Event, c: Connection, policy: D.Policy)
    requires AtMostOne(ss, c)
    ensures Find(Step(ss, e, policy), c) == Next(ss, e, c, policy)
  {
    hide SessionRuns.TcpStep, SessionRuns.UdpStep, IcmpStep, Watched, Swept, Judged, Somes, AtMostOne, Next, Find;
    match e
    case TcpPacket(_, _, _, _, _) => TcpPacketNext(ss, e, c, policy);
    case UdpPacket(_, _, _, _, _, _) => UdpPacketNext(ss, e, c, policy);
    case IcmpPacket(_, _, _, _, _, _) => IcmpPacketNext(ss, e, c, policy);
    case Monitor(_, polls) =>
      if |polls| == |ss| { MonitorNext(ss, e, c, policy); } else { Unchanged(ss, e, c, policy); }
    case Sweep(_, _, oks) => if |oks| == |ss| { SweepNext(ss, e, c, policy); } else { Unchanged(ss, e, c, policy); }
    case CheckAllowed(verdicts) =>
      if |verdicts| == |ss| { CheckAllowedNext(ss, e, c, policy); } else { Unchanged(ss, e, c, policy); }
    case _ => SocketNext(ss, e, c, policy);
  }

  /** An event with answers for another number of sessions happens to none. */
  lemma Unchanged(ss: seq<Session>, e: Event, c: Connection, policy: D.Policy)
    requires match e
             case Monitor(_, polls) => |polls| != |ss|
             case Sweep(_, _, oks) => |oks| != |ss|
             case CheckAllowed(verdicts) => |verdicts| != |ss|
             case _ => false
    ensures Find(ss, c) == Next(ss, e, c, policy)
  {
  }

  lemma LivesNext(l: Life, ss: seq<Session>, e: Event, c: Connection, policy: D.Policy)
    requires Now(l, c, policy) == Find(ss, c)
    ensures Now(Lives(l, ss, e, c, policy), c, policy) == Next(ss, e, c, policy)
  {
    hide M.Run, M.Step, U.Run, U.Step, HappensTcp, HappensUdp, Ends, Start, UdpStart, Place, Opened;
    var i := Place(ss, c);
    if i < |ss| && !Ends(ss, i, e) && Happens(ss, i, e, c, policy).Some? {
      var h := Happens(ss, i, e, c, policy).value;
      if l.TcpLife? && h.TcpStep? {
        TcpRunAppend(Start(l.b), l.steps, h.tcp);
      } else if l.UdpLife? && h.UdpStep? {
        UdpRunAppend(UdpStart(c, l.start), l.datagrams, h.udp, policy);
      }
    }
  }

  // ---- Whole runs ----

  /** The session of a connection, of either kind, is in the state that its own steps, picked from the events of the
      whole table, lead to; the connection has no session exactly if its history says so. */
  lemma {:induction false} HistoryIsRun(es: seq<Event>, c: Connection, policy: D.Policy)
    ensures Find(Run([], es, policy), c) == Now(History(es, c, policy), c, policy)
  {
    hide Lives, Now, Find, Step, Good, Next, AtMostOne;
    if es == [] {
      NoneAtFirst(c, policy);
    } else {
      var front, e := es[..|es| - 1], es[|es| - 1];
      var ss := Run([], front, policy);
      HistoryIsRun(front, c, policy);
      OneSessionPerConnection(front, policy);
      GoodHasOne(ss, c, policy);
      StepNext(ss, e, c, policy);
      LivesNext(History(front, c, policy), ss, e, c, policy);
    }
  }

  lemma NoneAtFirst(c: Connection, policy: D.Policy)
    ensures Find([], c) == Now(NoLife, c, policy)
  {
  }

  /** A connection has lives of its own kind. */
  lemma {:induction false} LifeOfKind(es: seq<Event>, c: Connection, policy: D.Policy)
    ensures var l := History(es, c, policy); (l.TcpLife? ==> c.Tcp?) && (l.UdpLife? ==> c.Udp?)
  {
    hide Step, Place, Ends, Happens;
    if es != [] {
      LifeOfKind(es[..|es| - 1], c, policy);
    }
  }

  /** Upstream safety in the table: if the packets that reached the session of a connection are those of
      one client stream, the socket has a prefix of it, whatever happened to all other connections. */
  lemma TableUpstreamSafety(es: seq<Event>, key: Key, policy: D.Policy, stream: seq<u8>)
    requires var l := History(es, Tcp(key), policy);
             l.TcpLife? ==> l.b.p.data == [] && TcpUpstream.RunFromClient(Start(l.b), l.steps, stream)
    ensures var o := Find(Run([], es, policy), Tcp(key));
            o.Some? ==>
              var m := o.value.tcp;
              && m.log.accepted <= stream
              && m.t.remoteSeq == Wrap(m.t.remoteStart + m.log.synIn + TcpUpstream.Forwarded(m) + m.log.finIn)
              && m.log.finIn <= m.log.synIn <= 1
  {
    hide History, Find, Run, M.Run, M.NewSession;
    var l := History(es, Tcp(key), policy);
    HistoryIsRun(es, Tcp(key), policy);
    LifeOfKind(es, Tcp(key), policy);
    if l.TcpLife? {
      var b := l.b;
      TcpUpstream.UpstreamSafety(b.p, b.mss, b.ws, b.isn, b.now, b.kernel, l.steps, stream);
      StartsAt(b, l.steps);
    }
  }

  lemma StartsAt(b: Birth, es: seq<M.Event>)
    ensures M.Run(Start(b), es).t.remoteStart == b.p.seqno && M.Run(Start(b), es).t.localStart == b.isn
  {
    hide M.Run;
  }

  /** Every read of the connection is looked at if it goes to the DNS port, and otherwise not. */
  lemma {:induction false} HistoryFilters(es: seq<Event>, c: Connection, policy: D.Policy)
    ensures var l := History(es, c, policy);
            l.TcpLife? ==> forall e <- l.steps :: e.FromSocket? ==>
              e.e.filter == if c.key.dest == 53 then D.Filtered(policy) else D.Unfiltered
  {
    hide Step, Place, Ends, HappensUdp;
    if es != [] {
      HistoryFilters(es[..|es| - 1], c, policy);
    }
  }

  /** Downstream safety in the table: the client of a connection gets, in place and each once, the bytes
      its session read from the socket, unless the connection goes to the DNS port. */
  lemma TableDownstreamSafety(es: seq<Event>, key: Key, policy: D.Policy)
    ensures var o := Find(Run([], es, policy), Tcp(key));
            o.Some? ==>
              var m := o.value.tcp;
              && (forall i :: 0 <= i < |m.log.out| ==> TcpDownstream.InPlace(m.log.out, m.t.localStart, i))
              && TcpDownstream.PayloadOf(m.log.out) <= m.log.shown
              && (!M.Closed(m.t.state) ==> TcpDownstream.PayloadOf(m.log.out) == m.log.shown)
              && (key.dest != 53 ==> m.log.shown == m.log.fetched)
  {
    hide History, Find, Run, M.Run, M.NewSession, TcpDownstream.InPlace;
    var l := History(es, Tcp(key), policy);
    HistoryIsRun(es, Tcp(key), policy);
    HistoryFilters(es, Tcp(key), policy);
    LifeOfKind(es, Tcp(key), policy);
    if l.TcpLife? {
      var b := l.b;
      StartsAt(b, l.steps);
      var chunks := TcpDownstream.DownstreamSafety(b.p, b.mss, b.ws, b.isn, b.now, b.kernel, l.steps);
    }
  }

  /** UDP in the table, both ways: the socket of a connection has exactly the datagrams that its session took while it
      was active, from the one that opened it on, each whole, once and in order; and what it delivered was read,
      whatever happened to all other connections. */
  lemma TableUdpDelivery(es: seq<Event>, key: Key, policy: D.Policy)
    ensures var o := Find(Run([], es, policy), Udp(key));
            var l := History(es, Udp(key), policy);
            && (o.Some? <==> l.UdpLife?)
            && (o.Some? ==>
                  var log := o.value.udp.log;
                  var mss: u16 := if key.version == 4 then 65507 else 65487;
                  && l.datagrams != [] && l.datagrams[0].FromTun?
                  && log.accepted == UdpDelivery.TakenOf(
                       l.datagrams[..UdpDelivery.ActiveFor(UdpStart(Udp(key), l.start), l.datagrams, policy)])
                  && (o.value.udp.u.state.Active? ==> log.accepted == UdpDelivery.TakenOf(l.datagrams))
                  && (o.value.udp.u.open ==> log.fetched == UdpDelivery.DeliveredOf(l.datagrams, mss)))
  {
    hide History, Find, Run, U.Run, U.NewSession;
    var l := History(es, Udp(key), policy);
    HistoryIsRun(es, Udp(key), policy);
    LifeOfKind(es, Udp(key), policy);
    if l.UdpLife? {
      HistoryOpens(es, Udp(key), policy);
      UdpDelivery.UdpUpstream(key.version, key.dest, l.start, l.datagrams, policy);
      UdpDelivery.UdpReads(key.version, key.dest, l.start, l.datagrams, policy);
    }
  }

  /** The first thing that happens to a UDP session is the datagram that opens it. */
  lemma {:induction false} HistoryOpens(es: seq<Event>, c: Connection, policy: D.Policy)
    ensures var l := History(es, c, policy); l.UdpLife? ==> l.datagrams != [] && l.datagrams[0].FromTun?
  {
    hide Step, Place, Ends, Happens;
    if es != [] {
      HistoryOpens(es[..|es| - 1], c, policy);
    }
  }
}
