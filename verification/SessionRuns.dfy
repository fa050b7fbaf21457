/** The session list over whole runs: what every session in it has been through, and that no
    connection has two sessions. */
module SessionRuns {
  import opened Wrappers
  import opened Words
  import opened Reassembly
  import opened SessionModel
  import M = TcpModel
  import D = DnsResponse
  import U = Udp
  import TcpUsage

  /** What the options and the kernel add to the first packet of a TCP connection. */
  datatype Opening = Opening(opens: bool, mss: u16, ws: u8, isn: u32, kernel: M.Kernel)

  datatype Event =
    | TcpPacket(key: Key, p: M.Packet, now: int, ok: bool, opening: Opening)
    | UdpPacket(key: Key, data: Payload, now: int, dhcp: bool, sendto: U.SendTo, opens: bool)
    | IcmpPacket(version: u8, saddr: Bytes, daddr: Bytes, now: int, opens: bool, broken: bool)
    | TcpSocket(i: nat, tcp: M.SocketEvent)
    | UdpSocket(i: nat, udp: U.Event)
    | IcmpSocket(i: nat, stop: bool, time: int)
    | Monitor(ms: int, polls: seq<Poll>)
    | Sweep(clock: int, load: Full, oks: seq<bool>)
    | CheckAllowed(verdicts: seq<Verdict>)

  predicate IsTcp(s: Session, key: Key) {
    s.TcpSession? && s.key == key
  }

  predicate IsUdp(s: Session, key: Key) {
    s.UdpSession? && s.key == key
  }

  /** ICMP sessions that were stopped are passed over. */
  predicate IsIcmp(s: Session, version: u8, saddr: Bytes, daddr: Bytes) {
    s.IcmpSession? && !s.icmp.stop && s.icmp.version == version && s.icmp.saddr == saddr && s.icmp.daddr == daddr
  }

  /** The first position that is accepted, or the length of the list. */
  function Search(ss: seq<Session>, wanted: Session -> bool): (i: nat)
    ensures i <= |ss| && (i < |ss| ==> wanted(ss[i])) && forall j :: 0 <= j < i ==> !wanted(ss[j])
  {
    if ss == [] || wanted(ss[0]) then 0 else Search(ss[1..], wanted) + 1
  }

  /** `handle_tcp`: a packet for a known session, or the SYN of a new one. */
  function TcpStep(ss: seq<Session>, key: Key, p: M.Packet, now: int, ok: bool, o: Opening): seq<Session> {
    var i := Search(ss, s => IsTcp(s, key));
    if i < |ss| then ss[i := TcpSession(key, M.HandleTcp(ss[i].tcp, p, now, ok))]
    else if p.urg || !p.syn || !o.opens then ss
    else [TcpSession(key, M.NewSession(p, o.mss, o.ws, o.isn, now, o.kernel))] + ss
  }

  /** `handle_udp`. */
  function UdpStep(ss: seq<Session>, key: Key, data: Payload, now: int, dhcp: bool, sendto: U.SendTo, opens: bool)
    : seq<Session>
  {
    var i := Search(ss, s => IsUdp(s, key));
    if i < |ss| then ss[i := UdpSession(key, U.HandleUdp(ss[i].udp, data, now, dhcp, sendto))]
    else if !opens then ss
    else [UdpSession(key, U.HandleUdp(U.NewSession(key.version, key.dest, now), data, now, dhcp, sendto))] + ss
  }

  /** `handle_icmp`, for an echo request. */
  function IcmpStep(ss: seq<Session>, version: u8, saddr: Bytes, daddr: Bytes, now: int, opens: bool, broken: bool)
    : seq<Session>
  {
    var i := Search(ss, s => IsIcmp(s, version, saddr, daddr));
    if i < |ss| then ss[i := IcmpSession(ss[i].icmp.(time := now, stop := broken))]
    else if !opens then ss
    else [IcmpSession(Icmp(version, saddr, daddr, broken, true, now))] + ss
  }

  /** What a connection to the DNS port delivers is looked at. */
  function LookedAt(e: M.SocketEvent, key: Key, policy: D.Policy): M.SocketEvent {
    e.(filter := if key.dest == U.DNS_PORT then D.Filtered(policy) else D.Unfiltered)
  }

  /** One step of the event loop. */
  function Step(ss: seq<Session>, e: Event, policy: D.Policy): seq<Session> {
    match e
    case TcpPacket(key, p, now, ok, opening) => TcpStep(ss, key, p, now, ok, opening)
    case UdpPacket(key, data, now, dhcp, sendto, opens) => UdpStep(ss, key, data, now, dhcp, sendto, opens)
    case IcmpPacket(version, saddr, daddr, now, opens, broken) =>
      IcmpStep(ss, version, saddr, daddr, now, opens, broken)
    case TcpSocket(i, ev) =>
      if i < |ss| && ss[i].TcpSession? then
        ss[i := TcpSession(ss[i].key, M.Step(ss[i].tcp, M.FromSocket(LookedAt(ev, ss[i].key, policy))))]
      else ss
    case UdpSocket(i, ev) =>
      if i < |ss| && ss[i].UdpSession? && (ev.SocketError? || ev.Readable?) then
        ss[i := UdpSession(ss[i].key, U.Step(ss[i].udp, ev, policy))]
      else ss
    case IcmpSocket(i, stop, time) =>
      if i < |ss| && ss[i].IcmpSession? then
        ss[i := IcmpSession(ss[i].icmp.(time := time, stop := ss[i].icmp.stop || stop))]
      else ss
    case Monitor(ms, polls) => if |polls| == |ss| then Watched(ss, ms, polls) else ss
    case Sweep(now, load, oks) => if |oks| == |ss| then Swept(ss, now, load, oks) else ss
    case CheckAllowed(verdicts) => if |verdicts| == |ss| then Somes(Judged(ss, verdicts)) else ss
  }

  function Run(ss: seq<Session>, es: seq<Event>, policy: D.Policy): seq<Session> {
    if es == [] then ss else Step(Run(ss, es[..|es| - 1], policy), es[|es| - 1], policy)
  }

  // ---- What a session has been through ----

  datatype Birth = Birth(p: M.Packet, mss: u16, ws: u8, isn: u32, now: int, kernel: M.Kernel)

  ghost predicate TcpRunOf(m: M.Machine, b: Birth, es: seq<M.Event>) {
    m == M.Run(M.NewSession(b.p, b.mss, b.ws, b.isn, b.now, b.kernel), es)
  }

  /** A run of the TCP state machine from the SYN of a new connection leads to m. */
  ghost predicate TcpReachable(m: M.Machine) {
    exists b, es :: TcpRunOf(m, b, es)
  }

  ghost predicate UdpRunOf(m: U.Machine, key: Key, now: int, es: seq<U.Event>, policy: D.Policy) {
    m == U.Run(U.NewSession(key.version, key.dest, now), es, policy)
  }

  ghost predicate UdpReachable(m: U.Machine, key: Key, policy: D.Policy) {
    exists now, es :: UdpRunOf(m, key, now, es, policy)
  }

  ghost predicate Lived(s: Session, policy: D.Policy) {
    match s
    case IcmpSession(_) => true
    case UdpSession(key, udp) => UdpReachable(udp, key, policy)
    case TcpSession(_, tcp) => TcpReachable(tcp)
  }

  /** Two sessions of one connection. */
  predicate Same(a: Session, b: Session) {
    || (a.TcpSession? && b.TcpSession? && a.key == b.key)
    || (a.UdpSession? && b.UdpSession? && a.key == b.key)
  }

  ghost predicate Good(ss: seq<Session>, policy: D.Policy) {
    && (forall i, j :: 0 <= i < j < |ss| ==> !Same(ss[i], ss[j]))
    && (forall s <- ss :: Lived(s, policy))
  }

  /** b is a later state of a. */
  ghost predicate Evolves(a: Session, b: Session, policy: D.Policy) {
    match a
    case IcmpSession(_) => b.IcmpSession?
    case UdpSession(key, udp) => b.UdpSession? && b.key == key && UdpStepOf(udp, b.udp, policy)
    case TcpSession(key, tcp) => b.TcpSession? && b.key == key && TcpStepOf(tcp, b.tcp)
  }

  ghost predicate TcpStepOf(a: M.Machine, b: M.Machine) {
    exists e :: b == M.Step(a, e)
  }

  ghost predicate UdpStepOf(a: U.Machine, b: U.Machine, policy: D.Policy) {
    exists e :: b == U.Step(a, e, policy)
  }

  lemma TcpRunAppend(m: M.Machine, es: seq<M.Event>, e: M.Event)
    ensures M.Run(m, es + [e]) == M.Step(M.Run(m, es), e)
  {
    hide M.Step;
    M.RunsOn(m, es, [e]);
    var r := M.Run(m, es);
    assert [e][1..] == [] && M.Run(M.Step(r, e), []) == M.Step(r, e);
  }

  lemma {:induction false} UdpRunAppend(m: U.Machine, es: seq<U.Event>, e: U.Event, policy: D.Policy)
    ensures U.Run(m, es + [e], policy) == U.Step(U.Run(m, es, policy), e, policy)
    decreases |es|
  {
    hide U.Step;
    if es == [] {
      assert [e][1..] == [];
      assert [] + [e] == [e];
      assert U.Run(U.Step(m, e, policy), [], policy) == U.Step(m, e, policy);
    } else {
      assert (es + [e])[1..] == es[1..] + [e];
      UdpRunAppend(U.Step(m, es[0], policy), es[1..], e, policy);
    }
  }

  lemma EvolvedLived(a: Session, b: Session, policy: D.Policy)
    requires Lived(a, policy) && Evolves(a, b, policy)
    ensures Lived(b, policy)
  {
    hide M.Run, M.Step, U.Run, U.Step, M.NewSession, U.NewSession;
    match a
    case IcmpSession(_) =>
    case UdpSession(key, udp) =>
      var now, es :| UdpRunOf(udp, key, now, es, policy);
      var e :| b.udp == U.Step(udp, e, policy);
      UdpRunAppend(U.NewSession(key.version, key.dest, now), es, e, policy);
      assert UdpRunOf(b.udp, key, now, es + [e], policy);
    case TcpSession(key, tcp) =>
      var b0, es :| TcpRunOf(tcp, b0, es);
      var e :| b.tcp == M.Step(tcp, e);
      TcpRunAppend(M.NewSession(b0.p, b0.mss, b0.ws, b0.isn, b0.now, b0.kernel), es, e);
      assert TcpRunOf(b.tcp, b0, es + [e]);
  }

  // ---- One session changes ----

  lemma GoodUpdate(ss: seq<Session>, i: nat, s: Session, policy: D.Policy)
    requires Good(ss, policy) && i < |ss| && Evolves(ss[i], s, policy)
    ensures Good(ss[i := s], policy)
  {
    hide Evolves, Lived;
    SameKind(ss[i], s, policy);
    EvolvedLived(ss[i], s, policy);
  }

  lemma SameKind(a: Session, b: Session, policy: D.Policy)
    requires Evolves(a, b, policy)
    ensures forall c :: (Same(b, c) <==> Same(a, c)) && (Same(c, b) <==> Same(c, a))
  {
  }

  lemma GoodPush(ss: seq<Session>, s: Session, policy: D.Policy)
    requires Good(ss, policy) && Lived(s, policy) && forall x <- ss :: !Same(s, x)
    ensures Good([s] + ss, policy)
  {
    hide Lived, Same;
  }

  lemma StepOfTcp(a: M.Machine, e: M.Event)
    ensures TcpStepOf(a, M.Step(a, e))
  {
  }

  lemma StepOfUdp(a: U.Machine, e: U.Event, policy: D.Policy)
    ensures UdpStepOf(a, U.Step(a, e, policy), policy)
  {
  }

  lemma NewTcpLived(key: Key, p: M.Packet, now: int, o: Opening, policy: D.Policy)
    ensures Lived(TcpSession(key, M.NewSession(p, o.mss, o.ws, o.isn, now, o.kernel)), policy)
  {
    hide M.NewSession;
    var m := M.NewSession(p, o.mss, o.ws, o.isn, now, o.kernel);
    assert M.Run(m, []) == m;
    assert TcpRunOf(m, Birth(p, o.mss, o.ws, o.isn, now, o.kernel), []);
  }

  lemma NewUdpLived(key: Key, now: int, e: U.Event, policy: D.Policy)
    ensures Lived(UdpSession(key, U.Step(U.NewSession(key.version, key.dest, now), e, policy)), policy)
  {
    hide U.NewSession, U.Step;
    var m := U.NewSession(key.version, key.dest, now);
    assert U.Run(m, [], policy) == m;
    UdpRunAppend(m, [], e, policy);
    assert UdpRunOf(U.Step(m, e, policy), key, now, [] + [e], policy);
  }

  lemma TcpStepGood(ss: seq<Session>, key: Key, p: M.Packet, now: int, ok: bool, o: Opening, policy: D.Policy)
    requires Good(ss, policy)
    ensures Good(TcpStep(ss, key, p, now, ok, o), policy)
  {
    hide Good, Lived, TcpStepOf, M.HandleTcp, M.NewSession;
    var i := Search(ss, s => IsTcp(s, key));
    if i < |ss| {
      var was := ss[i].tcp;
      StepOfTcp(was, M.FromTun(p, now, ok));
      assert M.Step(was, M.FromTun(p, now, ok)) == M.HandleTcp(was, p, now, ok);
      GoodUpdate(ss, i, TcpSession(key, M.HandleTcp(was, p, now, ok)), policy);
    } else {
      NewTcpLived(key, p, now, o, policy);
      var s := TcpSession(key, M.NewSession(p, o.mss, o.ws, o.isn, now, o.kernel));
      assert forall j :: 0 <= j < |ss| ==> !IsTcp(ss[j], key);
      GoodIfPushed(ss, s, policy);
    }
  }

  lemma GoodIfPushed(ss: seq<Session>, s: Session, policy: D.Policy)
    requires Good(ss, policy) && Lived(s, policy)
    requires forall j :: 0 <= j < |ss| ==> !Same(s, ss[j])
    ensures Good([s] + ss, policy)
  {
    hide Good, Lived, Same;
    GoodPush(ss, s, policy);
  }

  lemma UdpStepGood(ss: seq<Session>, key: Key, data: Payload, now: int, dhcp: bool, sendto: U.SendTo, opens: bool,
                    policy: D.Policy)
    requires Good(ss, policy)
    ensures Good(UdpStep(ss, key, data, now, dhcp, sendto, opens), policy)
  {
    hide Good, Lived, UdpStepOf, U.HandleUdp, U.NewSession;
    var i := Search(ss, s => IsUdp(s, key));
    var e := U.FromTun(data, now, dhcp, sendto);
    if i < |ss| {
      var was := ss[i].udp;
      StepOfUdp(was, e, policy);
      assert U.Step(was, e, policy) == U.HandleUdp(was, data, now, dhcp, sendto);
      GoodUpdate(ss, i, UdpSession(key, U.HandleUdp(was, data, now, dhcp, sendto)), policy);
    } else {
      var m := U.NewSession(key.version, key.dest, now);
      assert U.Step(m, e, policy) == U.HandleUdp(m, data, now, dhcp, sendto);
      NewUdpLived(key, now, e, policy);
      assert forall j :: 0 <= j < |ss| ==> !IsUdp(ss[j], key);
      GoodIfPushed(ss, UdpSession(key, U.HandleUdp(m, data, now, dhcp, sendto)), policy);
    }
  }

  lemma IcmpStepGood(ss: seq<Session>, version: u8, saddr: Bytes, daddr: Bytes, now: int, opens: bool, broken: bool,
                     policy: D.Policy)
    requires Good(ss, policy)
    ensures Good(IcmpStep(ss, version, saddr, daddr, now, opens, broken), policy)
  {
    hide Good;
    var i := Search(ss, s => IsIcmp(s, version, saddr, daddr));
    if i < |ss| {
      GoodUpdate(ss, i, IcmpSession(ss[i].icmp.(time := now, stop := broken)), policy);
    } else {
      GoodIfPushed(ss, IcmpSession(Icmp(version, saddr, daddr, broken, true, now)), policy);
    }
  }

  // ---- Every session is visited ----

  lemma CheckEvolves(s: Session, now: int, load: Full, ok: bool, policy: D.Policy)
    ensures Evolves(s, Check(s, now, load, ok).0, policy)
  {
    hide M.CheckTcpSession, U.CheckUdpSession, Timeout;
    if s.TcpSession? {
      assert M.Step(s.tcp, M.Sweep(now, Timeout(s, load), ok)) == M.CheckTcpSession(s.tcp, now, Timeout(s, load), ok).0;
    } else if s.UdpSession? {
      assert U.Step(s.udp, U.Sweep(now, Timeout(s, load)), policy) == U.CheckUdpSession(s.udp, now, Timeout(s, load)).0;
    }
  }

  /** A session is left alone, or at a later state. */
  ghost predicate Kept(s: Session, r: Session, policy: D.Policy) {
    r == s || Evolves(s, r, policy)
  }

  lemma WatchKeeps(s: Session, ms: int, p: Poll, policy: D.Policy)
    ensures Kept(s, Watch(s, ms, p).0, policy)
  {
    hide M.MonitorTcp;
    if s.TcpSession? && s.tcp.t.open {
      assert M.Step(s.tcp, M.Monitor(ms, p.kernel, p.ctlOk, p.ok))
             == M.MonitorTcp(s.tcp, ms, p.kernel, p.ctlOk, p.ok).0;
    }
  }

  lemma JudgeKeeps(s: Session, v: Verdict, policy: D.Policy)
    requires Judge(s, v).Some?
    ensures Kept(s, Judge(s, v).value, policy)
  {
    hide M.DisallowTcp;
    if s.TcpSession? && !v.allowed {
      assert M.Step(s.tcp, M.Disallow(v.ok)) == M.DisallowTcp(s.tcp, v.ok);
    } else if s.UdpSession? && !v.allowed {
      assert U.Step(s.udp, U.Disallow, policy) == U.DisallowUdp(s.udp);
    }
  }

  lemma KeptKind(a: Session, b: Session, policy: D.Policy)
    requires Kept(a, b, policy)
    ensures forall c :: (Same(b, c) <==> Same(a, c)) && (Same(c, b) <==> Same(c, a))
    ensures Lived(a, policy) ==> Lived(b, policy)
  {
    hide Lived, Evolves, Same;
    if b != a {
      SameKind(a, b, policy);
      if Lived(a, policy) {
        EvolvedLived(a, b, policy);
      }
    }
  }

  /** Sessions at ascending positions p, each kept, make a good list again. */
  lemma GoodKept(ss: seq<Session>, r: seq<Session>, p: seq<nat>, policy: D.Policy)
    requires Good(ss, policy) && |p| == |r|
    requires forall j, k :: 0 <= j < k < |p| ==> p[j] < p[k]
    requires forall k :: 0 <= k < |p| ==> p[k] < |ss| && Kept(ss[p[k]], r[k], policy)
    ensures Good(r, policy)
  {
    hide Kept, Lived, Same;
    forall i, j | 0 <= i < j < |r|
      ensures !Same(r[i], r[j])
    {
      KeptKind(ss[p[i]], r[i], policy);
      KeptKind(ss[p[j]], r[j], policy);
    }
    forall k | 0 <= k < |r|
      ensures Lived(r[k], policy)
    {
      KeptKind(ss[p[k]], r[k], policy);
    }
  }

  lemma SweptGood(ss: seq<Session>, now: int, load: Full, oks: seq<bool>, policy: D.Policy)
    requires Good(ss, policy) && |oks| == |ss|
    ensures Good(Swept(ss, now, load, oks), policy)
  {
    hide Good, Swept, Check, Evolves;
    var p := SweepIsFilter(ss, now, load, oks);
    var r := Swept(ss, now, load, oks);
    forall k | 0 <= k < |p|
      ensures p[k] < |ss| && Kept(ss[p[k]], r[k], policy)
    {
      CheckEvolves(ss[p[k]], now, load, oks[p[k]], policy);
    }
    GoodKept(ss, r, p, policy);
  }

  lemma JudgedGood(ss: seq<Session>, vs: seq<Verdict>, policy: D.Policy)
    requires Good(ss, policy) && |vs| == |ss|
    ensures Good(Somes(Judged(ss, vs)), policy)
  {
    hide Good, Somes, Judge, Kept;
    var os := Judged(ss, vs);
    var p := SomesInOrder(os);
    var r := Somes(os);
    forall k | 0 <= k < |p|
      ensures p[k] < |ss| && Kept(ss[p[k]], r[k], policy)
    {
      assert os[p[k]] == Judge(ss[p[k]], vs[p[k]]) == Some(r[k]);
      JudgeKeeps(ss[p[k]], vs[p[k]], policy);
    }
    GoodKept(ss, r, p, policy);
  }

  lemma WatchedGood(ss: seq<Session>, ms: int, ps: seq<Poll>, policy: D.Policy)
    requires Good(ss, policy) && |ps| == |ss|
    ensures Good(Watched(ss, ms, ps), policy)
  {
    hide Good, Watch, Kept;
    var p: seq<nat> := seq(|ss|, k requires 0 <= k < |ss| => k);
    var r := Watched(ss, ms, ps);
    forall k | 0 <= k < |p|
      ensures p[k] < |ss| && Kept(ss[p[k]], r[k], policy)
    {
      WatchKeeps(ss[k], ms, ps[k], policy);
    }
    GoodKept(ss, r, p, policy);
  }

  lemma SocketStepGood(ss: seq<Session>, e: Event, policy: D.Policy)
    requires Good(ss, policy) && (e.TcpSocket? || e.UdpSocket? || e.IcmpSocket?)
    ensures Good(Step(ss, e, policy), policy)
  {
    hide Good, M.Step, U.Step, TcpStepOf, UdpStepOf;
    match e
    case TcpSocket(i, ev) =>
      if i < |ss| && ss[i].TcpSession? {
        var e := M.FromSocket(LookedAt(ev, ss[i].key, policy));
        StepOfTcp(ss[i].tcp, e);
        GoodUpdate(ss, i, TcpSession(ss[i].key, M.Step(ss[i].tcp, e)), policy);
      }
    case UdpSocket(i, ev) =>
      if i < |ss| && ss[i].UdpSession? {
        StepOfUdp(ss[i].udp, ev, policy);
        GoodUpdate(ss, i, UdpSession(ss[i].key, U.Step(ss[i].udp, ev, policy)), policy);
      }
    case IcmpSocket(i, stop, time) =>
      if i < |ss| && ss[i].IcmpSession? {
        GoodUpdate(ss, i, IcmpSession(ss[i].icmp.(time := time, stop := ss[i].icmp.stop || stop)), policy);
      }
  }

  lemma StepGood(ss: seq<Session>, e: Event, policy: D.Policy)
    requires Good(ss, policy)
    ensures Good(Step(ss, e, policy), policy)
  {
    hide Good, TcpStep, UdpStep, IcmpStep, Watched, Swept, Judged, Somes;
    match e
    case TcpPacket(key, p, now, ok, opening) => TcpStepGood(ss, key, p, now, ok, opening, policy);
    case UdpPacket(key, data, now, dhcp, sendto, opens) =>
      UdpStepGood(ss, key, data, now, dhcp, sendto, opens, policy);
    case IcmpPacket(version, saddr, daddr, now, opens, broken) =>
      IcmpStepGood(ss, version, saddr, daddr, now, opens, broken, policy);
    case Monitor(ms, polls) => if |polls| == |ss| { WatchedGood(ss, ms, polls, policy); }
    case Sweep(now, load, oks) => if |oks| == |ss| { SweptGood(ss, now, load, oks, policy); }
    case CheckAllowed(verdicts) => if |verdicts| == |ss| { JudgedGood(ss, verdicts, policy); }
    case _ => SocketStepGood(ss, e, policy);
  }

  /** In every reachable list there is at most one TCP and at most one UDP session per connection, and
      every session is in a state that its own state machine reaches: what is proved of single
      sessions over all runs holds of every session in the list. */
  lemma {:induction false} OneSessionPerConnection(es: seq<Event>, policy: D.Policy)
    ensures Good(Run([], es, policy), policy)
  {
    hide Step, Good;
    if es == [] {
      NothingIsGood(policy);
    } else {
      OneSessionPerConnection(es[..|es| - 1], policy);
      StepGood(Run([], es[..|es| - 1], policy), es[|es| - 1], policy);
    }
  }

  lemma NothingIsGood(policy: D.Policy)
    ensures Good([], policy)
  {
  }

  /** Bytes that crossed the socket of a session. */
  function Moved(s: Session): nat {
    match s
    case IcmpSession(_) => 0
    case UdpSession(_, udp) => U.Total(udp.log.accepted) + U.Total(udp.log.fetched)
    case TcpSession(_, tcp) => |tcp.log.accepted| + |tcp.log.fetched|
  }

  /** The one report that was made of a session, with all its bytes. */
  predicate ReportedOnce(s: Session) {
    match s
    case IcmpSession(_) => true
    case UdpSession(_, udp) => udp.log.usage == [M.Usage(U.Total(udp.log.accepted), U.Total(udp.log.fetched))]
    case TcpSession(_, tcp) => tcp.log.usage == [M.Usage(|tcp.log.accepted|, |tcp.log.fetched|)]
  }

  /** Whatever the sweep frees after any run has been reported, once and exactly. */
  lemma FreedIsReported(es: seq<Event>, policy: D.Policy, i: nat, now: int, load: Full, ok: bool)
    requires i < |Run([], es, policy)|
    ensures var (r, del) := Check(Run([], es, policy)[i], now, load, ok);
            del && Moved(r) > 0 ==> ReportedOnce(r)
  {
    hide Run, M.Run, U.Run, M.CheckTcpSession, U.CheckUdpSession, M.NewSession, Timeout;
    hide U.UdpExact, TcpUsage.UsageExact;
    OneSessionPerConnection(es, policy);
    var s := Run([], es, policy)[i];
    assert Lived(s, policy);
    match s
    case IcmpSession(_) =>
    case UdpSession(key, udp) =>
      var start, ds :| UdpRunOf(udp, key, start, ds, policy);
      U.UdpUsageOnce(key.version, key.dest, start, ds, policy, now, Timeout(s, load));
    case TcpSession(key, tcp) =>
      var b, ts :| TcpRunOf(tcp, b, ts);
      TcpUsage.UsageOnce(b.p, b.mss, b.ws, b.isn, b.now, b.kernel, ts, now, Timeout(s, load), ok);
  }
}
