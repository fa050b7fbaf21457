/** Queues that stop for good.

    The forwarding loop only ever looks at the first segment. It stops when that segment has come to lie
    behind what is forwarded, because segments overlapped, or when a retransmission made it shorter than
    what was sent of it. Nothing that the client sends gets past a segment behind the edge; a shortened
    one is passed again exactly when a retransmission of it is long enough. */
module TcpStall {
  import opened Words
  import opened Serial
  import opened Reassembly
  import opened TcpModel
  import opened TcpUpstream
  import opened TcpRetransmit
  import opened TcpExamples

  /** The first segment starts before the edge of what is forwarded. */
  predicate Behind(m: Machine) {
    m.t.forward != [] && Key(m.t.forward[0], Edge(m)) < 0
  }

  /** More was sent of the first segment than it now holds. */
  predicate Shortened(m: Machine) {
    && m.t.forward != [] && m.t.forward[0].seqno == m.t.remoteSeq
    && m.t.forward[0].sent > |m.t.forward[0].data|
  }

  predicate Stuck(m: Machine) {
    Behind(m) || Shortened(m)
  }

  /** p repeats the first segment and is as long as what was sent of it. */
  predicate Refills(t: Tcp, p: Packet) {
    Queued(t, p) && t.forward != [] && p.seqno == t.remoteSeq && |p.data| >= t.forward[0].sent
  }

  // ---- The queue ----

  /** An arrival goes behind a first segment at or before the edge, or refills it. */
  lemma FirstAfterQueueing(q: seq<Segment>, edge: u32, at: nat, stream: seq<u8>, p: Packet)
    requires Held(q, edge, at, stream) && q != [] && Key(q[0], edge) <= 0
    requires -0x4000_0000 < Delta(p.seqno, edge) < 0x4000_0000
    ensures var r := QueueTcp(q, edge, p.seqno, p.data, p.psh);
            r != [] && r[0] == if p.seqno == edge == q[0].seqno then Refill(q[0], p.data) else q[0]
  {
    hide CompareU32, Insert, Matches;
    assert q[0] in q && Genuine(q[0], edge, at, stream);
    CompareIsSignOfDelta(p.seqno, edge);
    CompareInWindow(q[0].seqno, p.seqno, edge);
    KeyZero(q[0], edge);
    if CompareU32(p.seqno, edge) >= 0 {
      FirstInserted(q, p);
    }
  }

  lemma KeyZero(s: Segment, edge: u32)
    ensures Key(s, edge) == 0 <==> s.seqno == edge
  {
  }

  lemma FirstInserted(q: seq<Segment>, p: Packet)
    requires q != [] && CompareU32(q[0].seqno, p.seqno) <= 0
    ensures var r := Insert(q, p.seqno, p.data, p.psh);
            r != [] && r[0] == if CompareU32(q[0].seqno, p.seqno) < 0 then q[0] else Refill(q[0], p.data)
  {
  }

  /** A queue that stands still towards the socket. */
  predicate SameUp(a: Machine, b: Machine) {
    && b.t.forward == a.t.forward && b.t.remoteSeq == a.t.remoteSeq && b.t.remoteStart == a.t.remoteStart
    && b.log.accepted == a.log.accepted
  }

  lemma StuckFacts(m: Machine, stream: seq<u8>)
    requires Upstream(m, stream) && Stuck(m)
    ensures m.t.forward != [] && m.t.remoteSeq == Edge(m) && Key(m.t.forward[0], Edge(m)) <= 0
    ensures !m.t.state.Listen? && !m.t.state.FinWait1? && Forwarded(m) >= 0
    ensures Held(m.t.forward, Edge(m), Forwarded(m), stream)
    ensures m.t.forward[0].seqno != m.t.remoteSeq || m.t.forward[0].sent > |m.t.forward[0].data|
  {
    hide Genuine, Ascending;
    assert m.t.forward[0] in m.t.forward;
    KeyZero(m.t.forward[0], Edge(m));
  }

  // ---- Steps ----

  lemma DrainsNothing(q: seq<Segment>, remote: u32, buffer: BufferSize, sends: seq<SendResult>)
    requires q != [] && (q[0].seqno != remote || q[0].sent > |q[0].data|)
    ensures Drain(q, remote, buffer, sends) == Drained(q, remote, [], false, false)
  {
    FitsIff(q[0], buffer);
  }

  lemma ForwardsNothing(m: Machine, k: Kernel, sends: seq<SendResult>, ok: bool)
    requires m.t.forward != []
    requires m.t.forward[0].seqno != m.t.remoteSeq || m.t.forward[0].sent > |m.t.forward[0].data|
    ensures Forward(m, k, sends, ok) == (m, false)
  {
    hide Drain, WriteRst;
    DrainsNothing(m.t.forward, m.t.remoteSeq, ReceiveBuffer(m.t.open, k), sends);
    assert m.log.accepted + [] == m.log.accepted;
  }

  lemma ResetKeeps(m: Machine, ok: bool)
    requires !m.t.state.Listen?
    ensures SameUp(m, WriteRst(m, ok)) && SameUp(m, TakeEof(m, ok)) && !WriteRst(m, ok).t.state.Listen?
  {
    hide Outgoing;
  }

  lemma AcknowledgeKeeps(m: Machine, k: Kernel, now: int, ok: bool)
    requires !m.t.state.Listen?
    ensures SameUp(m, Acknowledge(m, false, k, now, ok)) && !Acknowledge(m, false, k, now, ok).t.state.Listen?
  {
    hide ReceiveWindow, Outgoing;
  }

  lemma FetchKeeps(m: Machine, recv: RecvResult, filter: Filter, now: int, ok: bool)
    requires !m.t.state.Listen?
    ensures SameUp(m, Fetch(m, recv, filter, now, ok))
  {
    hide SendWindow, WriteRst, TakeEof, Outgoing, Shown;
    ResetKeeps(m.(t := m.t.(time := now)), ok);
  }

  lemma CheckTcpSocketKeeps(m: Machine, e: SocketEvent)
    requires m.t.forward != [] && !m.t.state.Listen?
    requires m.t.forward[0].seqno != m.t.remoteSeq || m.t.forward[0].sent > |m.t.forward[0].data|
    ensures SameUp(m, CheckTcpSocket(m, e))
  {
    hide Forward, Acknowledge, Fetch, SendWindow, WriteRst;
    ResetKeeps(m.(t := m.t.(time := e.now)), e.rstOk);
    ForwardsNothing(m, e.before, e.sends, e.rstOk);
    var m2 := Acknowledge(m, false, e.after, e.now, e.ackOk);
    AcknowledgeKeeps(m, e.after, e.now, e.ackOk);
    FetchKeeps(m2, e.recv, e.filter, e.now, e.dataOk);
  }

  lemma MonitorKeeps(m: Machine, ms: int, k: Kernel, ctlOk: bool, ok: bool)
    ensures SameUp(m, MonitorTcp(m, ms, k, ctlOk, ok).0)
  {
    hide SendWindow, CanForward, KeepAlive;
    KeepAliveKeeps(m, ms, ok);
  }

  lemma KeepAliveKeeps(m: Machine, ms: int, ok: bool)
    ensures SameUp(m, KeepAlive(m, ms, ok))
  {
    hide Outgoing;
    WrapAdd(m.t.remoteSeq - 1, 1);
  }

  lemma CheckTcpSessionKeeps(m: Machine, now: int, timeout: int, ok: bool)
    requires !m.t.state.Listen?
    ensures SameUp(m, CheckTcpSession(m, now, timeout, ok).0)
  {
    hide WriteRst;
    ResetKeeps(m, ok);
  }

  lemma TakeFlagsKeeps(m: Machine, p: Packet, ok: bool)
    requires m.t.forward != [] && !m.t.state.Listen? && !m.t.state.FinWait1?
    ensures SameUp(m, TakeFlags(m, p, ok))
  {
    hide Outgoing, WriteRst, CompareU32;
    ResetKeeps(m, ok);
  }

  lemma HandleTcpKeeps(m: Machine, p: Packet, now: int, ok: bool)
    requires m.t.forward != [] && !m.t.state.Listen? && !m.t.state.FinWait1?
    requires QueueTcp(m.t.forward, m.t.remoteSeq, p.seqno, p.data, p.psh) != []
    ensures var q := if Queued(m.t, p) then QueueTcp(m.t.forward, m.t.remoteSeq, p.seqno, p.data, p.psh)
                     else m.t.forward;
            SameUp(m.(t := m.t.(forward := q)), HandleTcp(m, p, now, ok))
  {
    hide WriteRst, TakeFlags, QueueTcp, Shl32;
    var m1 := Refresh(m, p, now);
    ResetKeeps(m, ok);
    ResetKeeps(m1, ok);
    if !Closed(m.t.state) {
      TakeFlagsKeeps(Enqueue(m1, p), p, ok);
    }
  }

  /** Everything but a packet leaves a stuck queue where it is. */
  lemma OthersKeep(m: Machine, e: Event, stream: seq<u8>)
    requires Upstream(m, stream) && Stuck(m) && !e.FromTun?
    ensures SameUp(m, Step(m, e))
  {
    hide Upstream, Stuck, CheckTcpSocket, MonitorTcp, CheckTcpSession, WriteRst;
    StuckFacts(m, stream);
    match e
    case FromSocket(ev) => CheckTcpSocketKeeps(m, ev);
    case Monitor(ms, k, ctlOk, ok) => MonitorKeeps(m, ms, k, ctlOk, ok);
    case Sweep(now, timeout, ok) => CheckTcpSessionKeeps(m, now, timeout, ok);
    case Disallow(ok) => ResetKeeps(m, ok);
  }

  lemma SameUpStuck(a: Machine, b: Machine)
    requires SameUp(a, b)
    ensures Stuck(b) <==> Stuck(a)
    ensures Shortened(b) <==> Shortened(a)
  {
  }

  /** A stuck queue stays stuck, and the socket gets nothing, unless and only unless the first segment was
      shortened and the packet refills it. */
  lemma PacketFrees(m: Machine, p: Packet, now: int, ok: bool, stream: seq<u8>)
    requires Upstream(m, stream) && Stuck(m) && FromClient(m, p, stream)
    ensures HandleTcp(m, p, now, ok).log.accepted == m.log.accepted
    ensures Stuck(HandleTcp(m, p, now, ok)) <==> !(Shortened(m) && Refills(m.t, p))
  {
    hide Upstream, HandleTcp, QueueTcp, Held;
    StuckFacts(m, stream);
    var q := m.t.forward;
    if Queued(m.t, p) {
      var r := QueueTcp(q, m.t.remoteSeq, p.seqno, p.data, p.psh);
      FirstAfterQueueing(q, Edge(m), Forwarded(m), stream, p);
      HandleTcpKeeps(m, p, now, ok);
      SameUpStuck(m.(t := m.t.(forward := r)), HandleTcp(m, p, now, ok));
      KeyZero(q[0], Edge(m));
    } else {
      StillThere(m, p);
      HandleTcpKeeps(m, p, now, ok);
      SameUpStuck(m, HandleTcp(m, p, now, ok));
    }
  }

  lemma StillThere(m: Machine, p: Packet)
    requires m.t.forward != []
    ensures QueueTcp(m.t.forward, m.t.remoteSeq, p.seqno, p.data, p.psh) != []
  {
  }

  // ---- Runs ----

  /** No packet refills a shortened first segment. */
  predicate NeverRefilled(m: Machine, es: seq<Event>)
    decreases |es|
  {
    es != [] ==>
      && !(es[0].FromTun? && Shortened(m) && Refills(m.t, es[0].p))
      && NeverRefilled(Step(m, es[0]), es[1..])
  }

  lemma StuckStep(m: Machine, e: Event, stream: seq<u8>)
    requires Upstream(m, stream) && Stuck(m) && (e.FromTun? ==> FromClient(m, e.p, stream))
    ensures Step(m, e).log.accepted == m.log.accepted
    ensures Stuck(Step(m, e)) <==> !(e.FromTun? && Shortened(m) && Refills(m.t, e.p))
  {
    hide Upstream, Stuck, Shortened, Refills, FromClient, HandleTcp, CheckTcpSocket, MonitorTcp, CheckTcpSession;
    hide DisallowTcp;
    if e.FromTun? {
      PacketFrees(m, e.p, e.now, e.ok, stream);
    } else {
      OthersKeep(m, e, stream);
      SameUpStuck(m, Step(m, e));
    }
  }

  /** In every state of the run the queue is stuck. */
  predicate StuckThroughout(m: Machine, es: seq<Event>)
    decreases |es|
  {
    Stuck(m) && (es != [] ==> StuckThroughout(Step(m, es[0]), es[1..]))
  }

  /** Once stuck, a queue stays stuck over a whole run of the client's stream if and only if no packet
      refills a shortened first segment, and as long as it is stuck the socket gets not one byte more. */
  lemma {:induction false} StuckForGood(m: Machine, es: seq<Event>, stream: seq<u8>)
    requires Upstream(m, stream) && Stuck(m) && RunFromClient(m, es, stream)
    ensures StuckThroughout(m, es) <==> NeverRefilled(m, es)
    ensures NeverRefilled(m, es) ==> Run(m, es).log.accepted == m.log.accepted
    decreases |es|
  {
    hide Step, Upstream, Stuck, Shortened, Refills, FromClient;
    if es != [] {
      var m1 := Step(m, es[0]);
      StuckStep(m, es[0], stream);
      StepUpstream(m, es[0], stream);
      if Stuck(m1) {
        StuckForGood(m1, es[1..], stream);
      }
    }
  }

  /** Nothing the client sends frees a queue whose first segment is behind the edge. */
  lemma {:induction false} BehindForGood(m: Machine, es: seq<Event>, stream: seq<u8>)
    requires Upstream(m, stream) && Behind(m) && RunFromClient(m, es, stream)
    ensures Run(m, es).log.accepted == m.log.accepted && Behind(Run(m, es))
    decreases |es|
  {
    hide Step, Upstream, Behind, FromClient;
    if es != [] {
      BehindStep(m, es[0], stream);
      StepUpstream(m, es[0], stream);
      BehindForGood(Step(m, es[0]), es[1..], stream);
    }
  }

  lemma BehindStep(m: Machine, e: Event, stream: seq<u8>)
    requires Upstream(m, stream) && Behind(m) && (e.FromTun? ==> FromClient(m, e.p, stream))
    ensures Step(m, e).log.accepted == m.log.accepted && Behind(Step(m, e))
  {
    hide Upstream, Held, HandleTcp, CheckTcpSocket, MonitorTcp, CheckTcpSession, DisallowTcp, QueueTcp;
    StuckFacts(m, stream);
    KeyZero(m.t.forward[0], Edge(m));
    if e.FromTun? {
      StillThere(m, e.p);
      HandleTcpKeeps(m, e.p, e.now, e.ok);
      if Queued(m.t, e.p) {
        FirstAfterQueueing(m.t.forward, Edge(m), Forwarded(m), stream, e.p);
      }
    } else {
      OthersKeep(m, e, stream);
    }
  }

  // ---- Runs that get stuck ----

  function Data(seqno: u32, data: Payload): Packet {
    Packet(seqno, 0, 1000, data, false, false, false, false, false, false)
  }

  /** A connected session that queues q and has forwarded the given bytes. */
  predicate Connection(m: Machine, remoteSeq: u32, q: seq<Segment>, accepted: seq<u8>) {
    && m.t.state.SynRecv? && m.t.open && m.t.remoteStart == 0 && m.t.recvScale == 0
    && m.t.remoteSeq == remoteSeq && m.t.forward == q && m.log.accepted == accepted
  }

  lemma Connects()
    ensures Connection(Step(Opened(0), Writable([])), 1, [], [])
  {
    hide ReceiveWindow, Outgoing;
  }

  lemma Queues(m: Machine, remoteSeq: u32, q: seq<Segment>, accepted: seq<u8>, p: Packet)
    requires Connection(m, remoteSeq, q, accepted) && p == Data(p.seqno, p.data) && p.data != []
    ensures var r := QueueTcp(q, remoteSeq, p.seqno, p.data, false);
            Connection(Step(m, FromTun(p, 0, true)), remoteSeq, r, accepted)
  {
    hide Shl32, QueueTcp;
  }

  lemma Drains(m: Machine, remoteSeq: u32, q: seq<Segment>, accepted: seq<u8>, sends: seq<SendResult>)
    requires Connection(m, remoteSeq, q, accepted) && !Drain(q, remoteSeq, 1000, sends).broken
    ensures var d := Drain(q, remoteSeq, 1000, sends);
            Connection(Step(m, Writable(sends)), d.remote, d.rest, accepted + d.accepted)
  {
    hide Drain, ReceiveWindow, Outgoing, WriteRst;
  }

  /** Four bytes of which the socket takes two, and then the first of them alone, sent again. */
  function ShorteningRun(): seq<Event> {
    [Writable([]), FromTun(Data(1, [1, 2, 3, 4]), 0, true), Writable([Sent(2)]), FromTun(Data(1, [1]), 0, true)]
  }

  /** Two segments of two bytes that have one in common, and a socket that takes all it is offered. */
  function OverlappingRun(): seq<Event> {
    [Writable([]), FromTun(Data(1, [1, 2]), 0, true), FromTun(Data(2, [2, 3]), 0, true), Writable([Sent(2), Sent(2)])]
  }

  lemma FromClientOfFour(m: Machine, a: Event, b: Event, c: Event, d: Event, stream: seq<u8>)
    requires var m1 := Step(m, a);
             var m2 := Step(m1, b);
             var m3 := Step(m2, c);
             && (a.FromTun? ==> FromClient(m, a.p, stream)) && (b.FromTun? ==> FromClient(m1, b.p, stream))
             && (c.FromTun? ==> FromClient(m2, c.p, stream)) && (d.FromTun? ==> FromClient(m3, d.p, stream))
    ensures RunFromClient(m, [a, b, c, d], stream)
  {
    hide Step, FromClient;
    var m1 := Step(m, a);
    var m2 := Step(m1, b);
    var m3 := Step(m2, c);
    assert [a, b, c, d][1..] == [b, c, d] && [b, c, d][1..] == [c, d] && [c, d][1..] == [d] && [d][1..] == [];
    assert RunFromClient(Step(m3, d), [], stream);
    assert RunFromClient(m3, [d], stream);
    assert RunFromClient(m2, [c, d], stream);
    assert RunFromClient(m1, [b, c, d], stream);
  }

  lemma IsFromClient(m: Machine, remoteSeq: u32, q: seq<Segment>, accepted: seq<u8>, p: Packet, stream: seq<u8>)
    requires Connection(m, remoteSeq, q, accepted) && |accepted| < 10 && Partial(q) < 10
    requires 1 <= p.seqno < 10 && p.seqno - 1 + |p.data| <= |stream|
    requires p.data == stream[p.seqno - 1..p.seqno - 1 + |p.data|]
    ensures FromClient(m, p, stream)
  {
    DeltaOfWraps(p.seqno, 1 + Forwarded(m));
    assert Wrap(p.seqno) == p.seqno;
  }

  /** A retransmission that is shorter than what was sent: two of the client's four bytes never arrive,
      unless it sends at least two again from the first. */
  lemma ShorteningSticks()
    ensures var m := Run(Opened(0), ShorteningRun());
            && RunFromClient(Opened(0), ShorteningRun(), [1, 2, 3, 4])
            && Shortened(m) && m.log.accepted == [1, 2]
  {
    hide Step, FromClient, Opened;
    var es, stream := ShorteningRun(), [1, 2, 3, 4];
    var s := Segment(1, stream, 0, false);
    var m1 := Step(Opened(0), es[0]);
    var m2 := Step(m1, es[1]);
    var m3 := Step(m2, es[2]);
    Connects();
    Queues(m1, 1, [], [], es[1].p);
    assert Connection(m2, 1, [s], []);
    TakesTwo();
    Drains(m2, 1, [s], [], [Sent(2)]);
    assert [] + [1, 2] == [1, 2];
    assert Connection(m3, 1, [s.(sent := 2)], [1, 2]);
    Queues(m3, 1, [s.(sent := 2)], [1, 2], es[3].p);
    RefillsFirst([s.(sent := 2)], [1], false);
    IsFromClient(m1, 1, [], [], es[1].p, stream);
    IsFromClient(m3, 1, [s.(sent := 2)], [1, 2], es[3].p, stream);
    RunOfFour(Opened(0), es[0], es[1], es[2], es[3]);
    FromClientOfFour(Opened(0), es[0], es[1], es[2], es[3], stream);
  }

  lemma TakesTwo()
    ensures var s := Segment(1, [1, 2, 3, 4], 0, false);
            Drain([s], 1, 1000, [Sent(2)]) == Drained([s.(sent := 2)], 1, [1, 2], true, false)
  {
    var s := Segment(1, [1, 2, 3, 4], 0, false);
    assert [s][1..] == [] && [s.(sent := 2)] + [] == [s.(sent := 2)];
    assert s.data[0..2] == [1, 2];
  }

  /** Overlapping segments: the client's third byte never arrives, whatever it sends from then on. */
  lemma OverlapSticks()
    ensures var m := Run(Opened(0), OverlappingRun());
            && RunFromClient(Opened(0), OverlappingRun(), [1, 2, 3])
            && Behind(m) && m.log.accepted == [1, 2]
  {
    hide Step, FromClient, Opened;
    var es, stream := OverlappingRun(), [1, 2, 3];
    var s, t := Segment(1, [1, 2], 0, false), Segment(2, [2, 3], 0, false);
    var m1 := Step(Opened(0), es[0]);
    var m2 := Step(m1, es[1]);
    var m3 := Step(m2, es[2]);
    Connects();
    Queues(m1, 1, [], [], es[1].p);
    assert Connection(m2, 1, [s], []);
    Queues(m2, 1, [s], [], es[2].p);
    QueuesBehind(s, t);
    assert Connection(m3, 1, [s, t], []);
    TakesFirst();
    Drains(m3, 1, [s, t], [], [Sent(2), Sent(2)]);
    assert [] + [1, 2] == [1, 2];
    IsFromClient(m1, 1, [], [], es[1].p, stream);
    IsFromClient(m2, 1, [s], [], es[2].p, stream);
    RunOfFour(Opened(0), es[0], es[1], es[2], es[3]);
    FromClientOfFour(Opened(0), es[0], es[1], es[2], es[3], stream);
  }

  lemma QueuesBehind(s: Segment, t: Segment)
    requires s.seqno == 1 && t == Segment(2, [2, 3], 0, false)
    ensures QueueTcp([s], 1, 2, [2, 3], false) == [s, t]
  {
    assert [s][1..] == [];
    assert Insert([], 2, [2, 3], false) == [t];
    assert [s] + [t] == [s, t];
  }

  lemma TakesFirst()
    ensures var s, t := Segment(1, [1, 2], 0, false), Segment(2, [2, 3], 0, false);
            Drain([s, t], 1, 1000, [Sent(2), Sent(2)]) == Drained([t], 3, [1, 2], true, false)
  {
    var s, t := Segment(1, [1, 2], 0, false), Segment(2, [2, 3], 0, false);
    assert [s, t][1..] == [t] && [Sent(2), Sent(2)][1..] == [Sent(2)];
    assert Drain([t], 3, 998, [Sent(2)]) == Drained([t], 3, [], false, false);
    assert s.data[0..] + [] == [1, 2];
  }
}
