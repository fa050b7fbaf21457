/** The UDP session of udp.c: its state machine, its accounting and what it passes on. */
module Udp {
  import opened Words
  import opened NetworkOrder
  import opened Reassembly
  import opened TcpUsage
  import opened DnsResponse
  import M = TcpModel

  const UDP_TIMEOUT_53 := 15
  const UDP_TIMEOUT_ANY := 300
  const UDP_KEEP_TIMEOUT := 60
  const IP_MAXPACKET := 65535
  const UDP4_MAXMSG: u16 := IP_MAXPACKET - 20 - 8
  const UDP6_MAXMSG: u16 := IP_MAXPACKET - 40 - 8
  const DNS_PORT: u16 := 53

  datatype State = Active | Finishing | Closed | Blocked

  /** `struct udp_session` and its socket. */
  datatype Udp = Udp(state: State, open: bool, time: int, dest: u16, mss: u16, sent: nat, received: nat)

  /** Datagrams the socket accepted and delivered, datagrams written to the tun device, and
      `account_usage` calls. */
  datatype Log = Log(accepted: seq<Payload>, fetched: seq<Payload>, out: seq<Payload>, usage: seq<M.Usage>)

  datatype Machine = Machine(u: Udp, log: Log)

  /** `sendto` takes a whole datagram or fails, for EINTR/EAGAIN or for good. */
  datatype SendTo = Taken | Retry | Broken

  datatype Event =
    | FromTun(data: Payload, now: int, dhcp: bool, sendto: SendTo)
    | SocketError(now: int)
    | Readable(now: int, recv: M.RecvResult, ok: bool)
    | Sweep(now: int, timeout: int)
    | Disallow

  /** `get_udp_timeout`. */
  function UdpTimeout(dest: u16, sessions: nat, maxsessions: nat): int
    requires maxsessions > 0
  {
    M.Truncated((if dest == DNS_PORT then UDP_TIMEOUT_53 else UDP_TIMEOUT_ANY) * (100 - sessions * 100 / maxsessions))
  }

  /** The session registered for the first datagram of a connection. */
  function NewSession(version: u8, dest: u16, now: int): Machine {
    var mss := if version == 4 then UDP4_MAXMSG else UDP6_MAXMSG;
    Machine(Udp(Active, true, now, dest, mss, 0, 0), Log([], [], [], []))
  }

  /** `handle_udp` on a known session; dhcp says that `check_dhcp` answered. */
  function HandleUdp(m: Machine, data: Payload, now: int, dhcp: bool, sendto: SendTo): Machine {
    if !m.u.state.Active? || dhcp then m
    else
      var u := m.u.(time := now);
      match sendto
      case Taken => Machine(u.(sent := u.sent + |data|), m.log.(accepted := m.log.accepted + [data]))
      case Retry => m.(u := u)
      case Broken => m.(u := u.(state := Finishing))
  }

  /** What is written to the tun device for a received datagram: a DNS answer is looked at first. */
  function Passed(data: Payload, dest: u16, policy: Policy): Payload {
    if dest == DNS_PORT then
      BlockedMessage(data, policy.isBlocked, policy.rcode);
      Parse(data, policy.isBlocked, policy.rcode).data
    else data
  }

  /** A datagram of at most `mss` bytes was received. */
  function TakeDatagram(m: Machine, data: Payload, ok: bool, policy: Policy): Machine {
    var u := m.u.(received := m.u.received + |data|);
    var out := if ok then m.log.out + [Passed(data, m.u.dest, policy)] else m.log.out;
    Machine(if !ok || m.u.dest == DNS_PORT then u.(state := Finishing) else u,
            m.log.(fetched := m.log.fetched + [data], out := out))
  }

  /** `check_udp_socket` on a readable socket. */
  function CheckUdpSocket(m: Machine, now: int, recv: M.RecvResult, ok: bool, policy: Policy): Machine {
    var m1 := m.(u := m.u.(time := now));
    match recv
    case RecvError(retry) => if retry then m1 else m1.(u := m1.u.(state := Finishing))
    case Bytes(data) =>
      if data == [] then m1.(u := m1.u.(state := Finishing))
      else TakeDatagram(m1, if |data| <= m.u.mss then data else data[..m.u.mss], ok, policy)
  }

  function Account(m: Machine): Machine {
    if m.u.state.Closed? && (m.u.sent > 0 || m.u.received > 0) then
      Machine(m.u.(sent := 0, received := 0), m.log.(usage := m.log.usage + [M.Usage(m.u.sent, m.u.received)]))
    else m
  }

  /** `check_udp_session`; the flag says the session is to be freed. */
  function CheckUdpSession(m: Machine, now: int, timeout: int): (Machine, bool) {
    var u1 := if m.u.state.Active? && m.u.time + timeout < now then m.u.(state := Finishing) else m.u;
    var u2 := if u1.state.Finishing? then u1.(open := false, time := now, state := Closed) else u1;
    var r := Account(m.(u := u2));
    (r, (r.u.state.Closed? || r.u.state.Blocked?) && r.u.time + UDP_KEEP_TIMEOUT < now)
  }

  /** `check_allowed`, when the owner of the session lost its permission. */
  function DisallowUdp(m: Machine): Machine {
    if m.u.state.Active? then m.(u := m.u.(state := Finishing)) else m
  }

  /** One step. The socket delivers events only while it is open. */
  function Step(m: Machine, e: Event, policy: Policy): Machine {
    match e
    case FromTun(data, now, dhcp, sendto) => HandleUdp(m, data, now, dhcp, sendto)
    case SocketError(now) => if m.u.open then m.(u := m.u.(time := now, state := Finishing)) else m
    case Readable(now, recv, ok) => if m.u.open then CheckUdpSocket(m, now, recv, ok, policy) else m
    case Sweep(now, timeout) => CheckUdpSession(m, now, timeout).0
    case Disallow => DisallowUdp(m)
  }

  function Run(m: Machine, es: seq<Event>, policy: Policy): Machine
    decreases |es|
  {
    if es == [] then m else Run(Step(m, es[0], policy), es[1..], policy)
  }

  // ---- Accounting ----

  function Total(ds: seq<Payload>): nat {
    if ds == [] then 0 else Total(ds[..|ds| - 1]) + |ds[|ds| - 1]|
  }

  lemma TotalAppend(ds: seq<Payload>, d: Payload)
    ensures Total(ds + [d]) == Total(ds) + |d|
  {
    assert (ds + [d])[..|ds|] == ds;
  }

  /** The socket is open up to the sweep that closes the session. Reported plus live counters are the
      bytes that crossed the socket, and a report is final. */
  predicate UdpExact(m: Machine) {
    && (m.u.state.Active? || m.u.state.Finishing? ==> m.u.open)
    && (m.u.state.Closed? || m.u.state.Blocked? ==> !m.u.open)
    && SentTotal(m.log.usage) + m.u.sent == Total(m.log.accepted)
    && ReceivedTotal(m.log.usage) + m.u.received == Total(m.log.fetched)
    && |m.log.usage| <= 1
    && (m.log.usage != [] ==> m.u.state.Closed? && m.u.sent == 0 && m.u.received == 0)
  }

  lemma CheckUdpSocketExact(m: Machine, now: int, recv: M.RecvResult, ok: bool, policy: Policy)
    requires UdpExact(m) && m.u.open
    ensures UdpExact(CheckUdpSocket(m, now, recv, ok, policy))
  {
    hide Passed;
    if recv.Bytes? && recv.data != [] {
      var d: Payload := if |recv.data| <= m.u.mss then recv.data else recv.data[..m.u.mss];
      TotalAppend(m.log.fetched, d);
    }
  }

  /** The sweep reports what is left to report, and frees nothing that was not reported. */
  lemma CheckUdpSessionExact(m: Machine, now: int, timeout: int)
    requires UdpExact(m)
    ensures var (r, freed) := CheckUdpSession(m, now, timeout);
            && UdpExact(r)
            && (freed && Total(r.log.accepted) + Total(r.log.fetched) > 0 && !r.u.state.Blocked? ==>
                  r.log.usage == [M.Usage(Total(r.log.accepted), Total(r.log.fetched))])
  {
    var report := [M.Usage(m.u.sent, m.u.received)];
    assert [] + report == report;
    assert SentTotal(report) == m.u.sent && ReceivedTotal(report) == m.u.received;
    if m.log.usage != [] {
      var u := m.log.usage[0];
      assert m.log.usage == [u];
      assert SentTotal(m.log.usage) == u.sent && ReceivedTotal(m.log.usage) == u.received;
    }
  }

  lemma StepExact(m: Machine, e: Event, policy: Policy)
    requires UdpExact(m)
    ensures UdpExact(Step(m, e, policy))
  {
    hide HandleUdp, CheckUdpSocket, CheckUdpSession, Total, SentTotal, ReceivedTotal;
    match e
    case FromTun(data, now, dhcp, sendto) => HandleUdpExact(m, data, now, dhcp, sendto);
    case SocketError(now) =>
    case Readable(now, recv, ok) => if m.u.open { CheckUdpSocketExact(m, now, recv, ok, policy); }
    case Sweep(now, timeout) => CheckUdpSessionExact(m, now, timeout);
    case Disallow =>
  }

  lemma HandleUdpExact(m: Machine, data: Payload, now: int, dhcp: bool, sendto: SendTo)
    requires UdpExact(m)
    ensures UdpExact(HandleUdp(m, data, now, dhcp, sendto))
  {
    hide Total, SentTotal, ReceivedTotal;
    TotalAppend(m.log.accepted, data);
  }

  lemma {:induction false} RunExact(m: Machine, es: seq<Event>, policy: Policy)
    requires UdpExact(m)
    ensures UdpExact(Run(m, es, policy))
    decreases |es|
  {
    hide Step, UdpExact;
    if es != [] {
      StepExact(m, es[0], policy);
      RunExact(Step(m, es[0], policy), es[1..], policy);
    }
  }

  /** No step leads to a blocked session. */
  lemma {:induction false} NeverBlocked(m: Machine, es: seq<Event>, policy: Policy)
    requires !m.u.state.Blocked?
    ensures !Run(m, es, policy).u.state.Blocked?
    decreases |es|
  {
    hide Passed;
    if es != [] {
      NeverBlocked(Step(m, es[0], policy), es[1..], policy);
    }
  }

  /** In every reachable state the books balance, at most one report was made, and when the sweep
      frees a session that moved bytes, exactly one report with exactly those bytes was made. */
  lemma UdpUsageOnce(version: u8, dest: u16, start: int, es: seq<Event>, policy: Policy, now: int, timeout: int)
    ensures var m := Run(NewSession(version, dest, start), es, policy);
            var (r, freed) := CheckUdpSession(m, now, timeout);
            && UdpExact(m)
            && (freed && Total(r.log.accepted) + Total(r.log.fetched) > 0 ==>
                  r.log.usage == [M.Usage(Total(r.log.accepted), Total(r.log.fetched))])
  {
    var m0 := NewSession(version, dest, start);
    RunExact(m0, es, policy);
    NeverBlocked(m0, es, policy);
    CheckUdpSessionExact(Run(m0, es, policy), now, timeout);
  }

  // ---- States ----

  function Rank(s: State): nat {
    match s
    case Active => 0
    case Finishing => 1
    case Closed => 2
    case Blocked => 2
  }

  /** A session goes from active to finishing to closed and never back, so nothing is sent for it once
      it stopped being active, and nothing is received once it is closed. */
  lemma StepUdpOnward(m: Machine, e: Event, policy: Policy)
    requires UdpExact(m)
    ensures var r := Step(m, e, policy);
            && Rank(m.u.state) <= Rank(r.u.state) && r.u.dest == m.u.dest
            && (r.u.state == m.u.state || Rank(m.u.state) < Rank(r.u.state))
            && m.log.accepted <= r.log.accepted && m.log.fetched <= r.log.fetched && m.log.out <= r.log.out
            && (!m.u.state.Active? ==> r.log.accepted == m.log.accepted)
            && (m.u.state.Closed? || m.u.state.Blocked? ==>
                  r.log.fetched == m.log.fetched && r.log.out == m.log.out && !r.u.open)
  {
    hide Passed, Total;
  }

  // ---- What reaches the client ----

  predicate WritesSucceed(es: seq<Event>) {
    forall e <- es :: e.Readable? ==> e.ok
  }

  /** Every received datagram was passed on, one by one and in order. */
  predicate PassedOn(m: Machine, policy: Policy) {
    && |m.log.out| == |m.log.fetched|
    && forall i :: 0 <= i < |m.log.out| ==> m.log.out[i] == Passed(m.log.fetched[i], m.u.dest, policy)
  }

  lemma StepPassesOn(m: Machine, e: Event, policy: Policy)
    requires PassedOn(m, policy) && (e.Readable? ==> e.ok)
    ensures PassedOn(Step(m, e, policy), policy) && Step(m, e, policy).u.dest == m.u.dest
  {
    hide Passed;
  }

  lemma {:induction false} RunPassesOn(m: Machine, es: seq<Event>, policy: Policy)
    requires PassedOn(m, policy) && WritesSucceed(es)
    ensures PassedOn(Run(m, es, policy), policy) && Run(m, es, policy).u.dest == m.u.dest
    decreases |es|
  {
    hide Step, PassedOn;
    if es != [] {
      assert es[0] in es;
      StepPassesOn(m, es[0], policy);
      RunPassesOn(Step(m, es[0], policy), es[1..], policy);
    }
  }

  /** As long as no write to the tun device fails, every datagram the socket delivered is written to it
      whole, once and in order; exactly the answers from port 53 whose names are blocked are changed. */
  lemma UdpDownstream(version: u8, dest: u16, start: int, es: seq<Event>, policy: Policy)
    requires WritesSucceed(es)
    ensures var log := Run(NewSession(version, dest, start), es, policy).log;
            && |log.out| == |log.fetched|
            && (forall i :: 0 <= i < |log.out| ==>
                  (log.out[i] != log.fetched[i] <==>
                     dest == 53 && Parse(log.fetched[i], policy.isBlocked, policy.rcode).blocked))
            && (forall i :: 0 <= i < |log.out| && log.out[i] != log.fetched[i] ==>
                  && log.out[i] == Parse(log.fetched[i], policy.isBlocked, policy.rcode).data
                  && |log.out[i]| < |log.fetched[i]|)
  {
    hide Parse;
    RunPassesOn(NewSession(version, dest, start), es, policy);
    var log := Run(NewSession(version, dest, start), es, policy).log;
    forall i | 0 <= i < |log.out|
      ensures var r := Parse(log.fetched[i], policy.isBlocked, policy.rcode);
              && (log.out[i] != log.fetched[i] <==> dest == 53 && r.blocked)
              && (log.out[i] != log.fetched[i] ==> log.out[i] == r.data && |log.out[i]| < |log.fetched[i]|)
    {
      assert log.out[i] == Passed(log.fetched[i], dest, policy);
      BlockedMessage(log.fetched[i], policy.isBlocked, policy.rcode);
      if Parse(log.fetched[i], policy.isBlocked, policy.rcode).blocked {
        BlockedIsResponse(log.fetched[i], policy.isBlocked, policy.rcode);
      }
    }
  }

  lemma BlockedIsResponse(data: Bytes, isBlocked: Bytes -> bool, rcode: int)
    requires |data| <= 0xFFFF && Parse(data, isBlocked, rcode).blocked
    ensures GetBe16(data, 6) > 0
  {
  }
}
