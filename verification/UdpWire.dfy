/** Whether the datagrams of a session are valid on the wire. */
module UdpWire {
  import opened Words
  import opened Reassembly
  import opened DnsResponse
  import opened PacketCodec
  import opened Udp
  import M = TcpModel

  /** Nothing that was written is longer than a socket message of the version. */
  predicate AllFit(m: Machine) {
    forall d <- m.log.out :: |d| <= m.u.mss
  }

  lemma PassedFits(data: Payload, dest: u16, policy: Policy)
    ensures |Passed(data, dest, policy)| <= |data|
  {
    hide Parse;
    BlockedMessage(data, policy.isBlocked, policy.rcode);
  }

  lemma SocketFits(m: Machine, now: int, recv: M.RecvResult, ok: bool, policy: Policy)
    requires AllFit(m)
    ensures AllFit(CheckUdpSocket(m, now, recv, ok, policy))
    ensures CheckUdpSocket(m, now, recv, ok, policy).u.mss == m.u.mss
  {
    hide Passed;
    if recv.Bytes? {
      PassedFits(if |recv.data| <= m.u.mss then recv.data else recv.data[..m.u.mss], m.u.dest, policy);
    }
  }

  lemma StepFits(m: Machine, e: Event, policy: Policy)
    requires AllFit(m)
    ensures AllFit(Step(m, e, policy)) && Step(m, e, policy).u.mss == m.u.mss
  {
    hide CheckUdpSocket;
    if e.Readable? {
      SocketFits(m, e.now, e.recv, e.ok, policy);
    }
  }

  lemma {:induction false} RunFits(m: Machine, es: seq<Event>, policy: Policy)
    requires AllFit(m)
    ensures AllFit(Run(m, es, policy)) && Run(m, es, policy).u.mss == m.u.mss
    decreases |es|
  {
    hide Step, AllFit;
    if es != [] {
      StepFits(m, es[0], policy);
      RunFits(Step(m, es[0], policy), es[1..], policy);
    }
  }

  /** Every datagram of every run is valid at an IPv4 client, and at an IPv6 client exactly if its sum is not
      0xFFFF. */
  lemma DatagramsValid(version: u8, dest: u16, start: int, es: seq<Event>, policy: Policy, c: Conn, i: nat)
    requires i < |Run(NewSession(version, dest, start), es, policy).log.out|
    ensures var d := Run(NewSession(version, dest, start), es, policy).log.out[i];
            && (version == 4 && IsIp4(c) ==> Verifies4(Udp4Packet(c, d)))
            && (version != 4 && IsIp6(c) ==> (Verifies6(Udp6Packet(c, d)) <==> UdpSum6(c, d) != 0xFFFF))
  {
    hide Run, Verifies4, Verifies6, Udp4Packet, Udp6Packet, UdpSum6;
    var m0 := NewSession(version, dest, start);
    RunFits(m0, es, policy);
    var d := Run(m0, es, policy).log.out[i];
    assert d in Run(m0, es, policy).log.out;
    EmittedPacketsVerify(c, M.Packet(0, 0, 0, [], false, false, false, false, false, false), 0, d);
  }
}
