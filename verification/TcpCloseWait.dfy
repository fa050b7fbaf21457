/** What ends a session that has taken the client's FIN but still has data to forward.

    In CLOSE_WAIT every packet with data resets the session, and data that is still queued may well be sent
    again: the client has no acknowledgement of it. TcpDelivery says when all of it arrives instead. */
module TcpCloseWait {
  import opened Words
  import opened Serial
  import opened Reassembly
  import opened TcpModel
  import opened TcpUpstream
  import opened TcpExamples

  /** ackno acknowledges what was never sent. */
  predicate Future(t: Tcp, ackno: u32) {
    ackno != t.localSeq && Wrap(ackno + 1) != t.localSeq && CompareU32(ackno, t.localSeq) > 0
  }

  /** Exactly which packets reset a session in CLOSE_WAIT. */
  lemma ResetInCloseWaitIff(m: Machine, p: Packet, now: int, ok: bool)
    requires m.t.state.CloseWait?
    ensures Closed(HandleTcp(m, p, now, ok).t.state) <==>
            !p.urg && (p.data != [] || p.rst || (p.ack && Future(m.t, p.ackno)))
  {
    hide Shl32, Outgoing, CompareU32;
  }

  /** The client sends two bytes and its FIN, and the bytes again before they are acknowledged. */
  function Sent(): Packet {
    Packet(1, 101, 1000, [1, 2], false, true, true, false, false, false)
  }

  function Fin(): Packet {
    Packet(3, 101, 1000, [], false, true, false, false, false, true)
  }

  function Opening(): seq<Event> {
    [Writable([]), Acks(101), FromTun(Sent(), 0, true)]
  }

  function Ending(): seq<Event> {
    [FromTun(Fin(), 0, true), FromTun(Sent(), 0, true), Sweep(0, 20, true)]
  }

  predicate Stands(m: Machine, s: State, q: seq<Segment>) {
    && m.t.state == s && m.t.open && m.t.localSeq == 101 && m.t.remoteSeq == 1 && m.t.remoteStart == 0
    && m.t.forward == q && m.log.accepted == []
  }

  lemma Connects()
    ensures Stands(Step(Opened(100), Writable([])), SynRecv, [])
  {
    hide ReceiveWindow, Outgoing;
  }

  lemma Establishes(m: Machine)
    requires Stands(m, SynRecv, [])
    ensures Stands(Step(m, Acks(101)), Established, [])
  {
    hide Shl32;
  }

  function Waiting(): seq<Segment> {
    [Segment(1, [1, 2], 0, true)]
  }

  lemma Queues(m: Machine)
    requires Stands(m, Established, [])
    ensures Stands(Step(m, FromTun(Sent(), 0, true)), Established, Waiting())
  {
    hide Shl32;
  }

  lemma TakesFin(m: Machine)
    requires Stands(m, Established, Waiting())
    ensures Stands(Step(m, FromTun(Fin(), 0, true)), CloseWait, Waiting())
  {
    hide Shl32;
  }

  lemma Resets(m: Machine)
    requires Stands(m, CloseWait, Waiting())
    ensures Stands(Step(m, FromTun(Sent(), 0, true)), Closing, Waiting())
  {
    hide Shl32, Outgoing;
  }

  lemma Closes(m: Machine)
    requires Stands(m, Closing, Waiting())
    ensures var r := Step(m, Sweep(0, 20, true)); !r.t.open && r.log.accepted == [] && r.t.forward == Waiting()
  {
    hide Outgoing;
  }

  lemma IsTheClients(m: Machine, s: State, q: seq<Segment>)
    requires Stands(m, s, q) && (q == [] || q == Waiting())
    ensures FromClient(m, Sent(), [1, 2]) && FromClient(m, Fin(), [1, 2]) && FromClient(m, Acks(101).p, [1, 2])
  {
    assert Wrap(Base(m.t) + Forwarded(m)) == 1;
  }

  /** All that the client sends is its own, in order and in window, and not one byte arrives: the socket is
      closed with both still queued. */
  lemma RepeatedDataIsLost()
    ensures var m := Run(Opened(100), Opening() + Ending());
            && RunFromClient(Opened(100), Opening() + Ending(), [1, 2])
            && !m.t.open && m.log.accepted == [] && m.t.forward == Waiting()
  {
    hide Step, FromClient, Opened, Stands;
    var m0 := Opened(100);
    var m1 := Step(m0, Writable([]));
    var m2 := Step(m1, Acks(101));
    var m3 := Step(m2, FromTun(Sent(), 0, true));
    var m4 := Step(m3, FromTun(Fin(), 0, true));
    var m5 := Step(m4, FromTun(Sent(), 0, true));
    Connects();
    Establishes(m1);
    Queues(m2);
    TakesFin(m3);
    Resets(m4);
    Closes(m5);
    IsTheClients(m1, SynRecv, []);
    IsTheClients(m2, Established, []);
    IsTheClients(m3, Established, Waiting());
    IsTheClients(m4, CloseWait, Waiting());
    RunOfThree(m0, Opening()[0], Opening()[1], Opening()[2]);
    RunOfThree(m3, Ending()[0], Ending()[1], Ending()[2]);
    RunsOn(m0, Opening(), Ending());
    ThreeFromClient(m3, Ending()[0], Ending()[1], Ending()[2], []);
    ThreeFromClient(m0, Opening()[0], Opening()[1], Opening()[2], Ending());
    assert Ending() + [] == Ending();
  }

  lemma ThreeFromClient(m: Machine, a: Event, b: Event, c: Event, es: seq<Event>)
    requires a.FromTun? ==> FromClient(m, a.p, [1, 2])
    requires b.FromTun? ==> FromClient(Step(m, a), b.p, [1, 2])
    requires c.FromTun? ==> FromClient(Step(Step(m, a), b), c.p, [1, 2])
    requires RunFromClient(Step(Step(Step(m, a), b), c), es, [1, 2])
    ensures RunFromClient(m, [a, b, c] + es, [1, 2])
  {
    hide Step, FromClient, RunFromClient;
    var m1 := Step(m, a);
    var m2 := Step(m1, b);
    OneFromClient(m2, c, es);
    OneFromClient(m1, b, [c] + es);
    OneFromClient(m, a, [b] + ([c] + es));
    assert [a] + ([b] + ([c] + es)) == [a, b, c] + es;
  }

  lemma OneFromClient(m: Machine, a: Event, es: seq<Event>)
    requires a.FromTun? ==> FromClient(m, a.p, [1, 2])
    requires RunFromClient(Step(m, a), es, [1, 2])
    ensures RunFromClient(m, [a] + es, [1, 2])
  {
    hide Step, FromClient;
    assert ([a] + es)[1..] == es;
  }
}
