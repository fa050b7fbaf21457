/** What a UDP session carries, both ways and over whole runs, and exactly what ends it. */
module UdpDelivery {
  import opened Words
  import opened Reassembly
  import opened DnsResponse
  import opened Udp
  import M = TcpModel

  // ---- One event ----

  /** The socket takes the client's datagram; one that check_dhcp answers is not offered to it. */
  predicate Takes(e: Event) {
    e.FromTun? && !e.dhcp && e.sendto.Taken?
  }

  /** The socket delivers a datagram. */
  predicate Delivers(e: Event) {
    e.Readable? && e.recv.Bytes? && e.recv.data != []
  }

  /** What is read of a datagram: as much as fits an IP packet. */
  function Read(data: seq<u8>, mss: u16): Payload {
    if |data| <= mss then data else data[..mss]
  }

  /** Exactly what ends the activity of an open session: a send or a read that fails for good, an error at the socket,
      an empty datagram, an answer from port 53, a write to the tun device that fails, a time of silence, and the loss
      of the permission. */
  predicate EndsActivity(u: Udp, e: Event) {
    match e
    case FromTun(_, _, dhcp, sendto) => !dhcp && sendto.Broken?
    case SocketError(_) => true
    case Readable(_, recv, ok) =>
      (recv.RecvError? && !recv.retry) || (recv.Bytes? && (recv.data == [] || u.dest == 53 || !ok))
    case Sweep(now, timeout) => u.time + timeout < now
    case Disallow => true
  }

  /** Whether the event shows that the connection is in use. */
  predicate Uses(u: Udp, e: Event) {
    (u.state.Active? && e.FromTun? && !e.dhcp) || (u.open && (e.SocketError? || e.Readable?))
  }

  lemma StepCarries(m: Machine, e: Event, policy: Policy)
    requires UdpExact(m)
    ensures var r := Step(m, e, policy);
            && r.log.accepted == m.log.accepted + (if m.u.state.Active? && Takes(e) then [e.data] else [])
            && r.log.fetched == m.log.fetched + (if m.u.open && Delivers(e) then [Read(e.recv.data, m.u.mss)] else [])
            && r.u.dest == m.u.dest && r.u.mss == m.u.mss
  {
    hide Passed, Total;
  }

  /** An active session stays active exactly unless the event ends that. Every event that shows it to be in use sets its
      time, and otherwise only the sweep that closes it does. */
  lemma ActiveIff(m: Machine, e: Event, policy: Policy)
    requires UdpExact(m) && m.u.state.Active?
    ensures var r := Step(m, e, policy).u;
            && (r.state.Active? <==> !EndsActivity(m.u, e))
            && (Uses(m.u, e) ==> r.time == e.now)
            && (!Uses(m.u, e) && r.state.Active? ==> r.time == m.u.time)
  {
    hide Passed, Total;
  }

  /** A sweep closes exactly the sessions that are finishing and the active ones that were silent for too long; it
      reports what they carried; and it frees exactly those that were closed before, and have been kept for a minute. */
  lemma SweptUdpIff(m: Machine, now: int, timeout: int)
    ensures var (r, freed) := CheckUdpSession(m, now, timeout);
            var ends := m.u.state.Finishing? || (m.u.state.Active? && m.u.time + timeout < now);
            && r.u.state == (if ends then Closed else m.u.state)
            && r.u.open == (m.u.open && !ends) && r.u.time == (if ends then now else m.u.time)
            && (if r.u.state.Closed? && m.u.sent + m.u.received > 0 then
                  r.log.usage == m.log.usage + [M.Usage(m.u.sent, m.u.received)] && r.u.sent == r.u.received == 0
                else r.log == m.log && r.u.sent == m.u.sent && r.u.received == m.u.received)
            && (freed <==> !ends && (m.u.state.Closed? || m.u.state.Blocked?) && m.u.time + 60 < now)
  {
  }

  /** The first datagram of a connection registers an active session with nothing carried, which the sweep leaves alone
      for the time it may be silent. */
  lemma RegisteredUdp(version: u8, dest: u16, start: int)
    ensures var u := NewSession(version, dest, start).u;
            && u.state.Active? && u.open && u.dest == dest && u.mss == (if version == 4 then 65507 else 65487)
            && u.sent == u.received == 0
            && forall now, timeout :: EndsActivity(u, Sweep(now, timeout)) <==> start + timeout < now
  {
  }

  // ---- Runs ----

  /** The datagrams that the client sent and the socket took. */
  function TakenOf(es: seq<Event>): seq<Payload> {
    if es == [] then [] else (if Takes(es[0]) then [es[0].data] else []) + TakenOf(es[1..])
  }

  /** The datagrams that the socket delivered. */
  function DeliveredOf(es: seq<Event>, mss: u16): seq<Payload> {
    if es == [] then []
    else (if Delivers(es[0]) then [Read(es[0].recv.data, mss)] else []) + DeliveredOf(es[1..], mss)
  }

  /** How many of the events come while the session is active, counting the one that ends that. */
  function ActiveFor(m: Machine, es: seq<Event>, policy: Policy): (n: nat)
    ensures n <= |es|
    decreases |es|
  {
    if es == [] then 0
    else if EndsActivity(m.u, es[0]) then 1
    else 1 + ActiveFor(Step(m, es[0], policy), es[1..], policy)
  }

  /** No event ends the activity. */
  predicate Lasts(m: Machine, es: seq<Event>, policy: Policy)
    decreases |es|
  {
    es != [] ==> !EndsActivity(m.u, es[0]) && Lasts(Step(m, es[0], policy), es[1..], policy)
  }

  lemma {:induction false} InactiveTakesNothing(m: Machine, es: seq<Event>, policy: Policy)
    requires UdpExact(m) && !m.u.state.Active?
    ensures var r := Run(m, es, policy); r.log.accepted == m.log.accepted && !r.u.state.Active?
    decreases |es|
  {
    hide Step, UdpExact;
    if es != [] {
      StepUdpOnward(m, es[0], policy);
      StepExact(m, es[0], policy);
      InactiveTakesNothing(Step(m, es[0], policy), es[1..], policy);
    }
  }

  lemma {:induction false} RunTakes(m: Machine, es: seq<Event>, policy: Policy)
    requires UdpExact(m) && m.u.state.Active?
    ensures var r := Run(m, es, policy);
            var n := ActiveFor(m, es, policy);
            && r.log.accepted == m.log.accepted + TakenOf(es[..n])
            && (r.u.state.Active? <==> Lasts(m, es, policy))
            && (r.u.state.Active? ==> n == |es|)
    decreases |es|
  {
    hide Step, UdpExact, EndsActivity;
    if es != [] {
      var m1, n := Step(m, es[0], policy), ActiveFor(m, es, policy);
      StepCarries(m, es[0], policy);
      StepExact(m, es[0], policy);
      ActiveIff(m, es[0], policy);
      assert es[..n][0] == es[0] && es[..n][1..] == es[1..][..n - 1];
      if EndsActivity(m.u, es[0]) {
        InactiveTakesNothing(m1, es[1..], policy);
        assert es[1..][..0] == [] && TakenOf([]) == [];
      } else {
        RunTakes(m1, es[1..], policy);
      }
    }
  }

  /** From client to server over a whole run: the socket has exactly the datagrams that were sent while the session was
      active, that DHCP did not answer and that the socket took, each whole, once and in order; and the session is
      active exactly until an event ends that. */
  lemma UdpUpstream(version: u8, dest: u16, start: int, es: seq<Event>, policy: Policy)
    ensures var m := NewSession(version, dest, start);
            var r := Run(m, es, policy);
            && r.log.accepted == TakenOf(es[..ActiveFor(m, es, policy)])
            && (r.u.state.Active? <==> Lasts(m, es, policy))
            && (r.u.state.Active? ==> r.log.accepted == TakenOf(es))
  {
    hide Run;
    var m := NewSession(version, dest, start);
    RunTakes(m, es, policy);
    var n := ActiveFor(m, es, policy);
    assert [] + TakenOf(es[..n]) == TakenOf(es[..n]);
    assert es[..|es|] == es;
  }

  lemma {:induction false} ClosedStaysSilent(m: Machine, es: seq<Event>, policy: Policy)
    requires UdpExact(m) && !m.u.open
    ensures var r := Run(m, es, policy); r.log.fetched == m.log.fetched && !r.u.open
    decreases |es|
  {
    hide Step;
    if es != [] {
      StepUdpOnward(m, es[0], policy);
      StepExact(m, es[0], policy);
      ClosedStaysSilent(Step(m, es[0], policy), es[1..], policy);
    }
  }

  lemma {:induction false} RunDelivers(m: Machine, es: seq<Event>, policy: Policy)
    requires UdpExact(m)
    ensures var r := Run(m, es, policy);
            var all := m.log.fetched + DeliveredOf(es, m.u.mss);
            r.log.fetched <= all && (r.u.open ==> r.log.fetched == all)
    decreases |es|
  {
    hide Step, UdpExact, Delivers, Read;
    if es == [] {
      assert m.log.fetched + [] == m.log.fetched;
    } else {
      var m1 := Step(m, es[0], policy);
      StepCarries(m, es[0], policy);
      StepExact(m, es[0], policy);
      if m.u.open {
        RunDelivers(m1, es[1..], policy);
        assert m1.log.fetched + DeliveredOf(es[1..], m.u.mss) == m.log.fetched + DeliveredOf(es, m.u.mss);
      } else {
        ClosedStaysSilent(m, es, policy);
      }
    }
  }

  /** From server to client over a whole run: while the socket is open, every datagram that it delivered was read, once
      and in order, up to the size that fits an IP packet of the connection's version; once it is closed, nothing more
      is. UdpDownstream says what becomes of them. */
  lemma UdpReads(version: u8, dest: u16, start: int, es: seq<Event>, policy: Policy)
    ensures var r := Run(NewSession(version, dest, start), es, policy);
            var mss: u16 := if version == 4 then 65507 else 65487;
            && r.log.fetched <= DeliveredOf(es, mss)
            && (r.u.open ==> r.log.fetched == DeliveredOf(es, mss))
  {
    hide Run;
    var m := NewSession(version, dest, start);
    RunDelivers(m, es, policy);
    assert [] + DeliveredOf(es, m.u.mss) == DeliveredOf(es, m.u.mss);
  }
}
