/** Retransmissions of a segment that is partly sent.

    `queue_tcp` replaces the data of a segment that is sent again with another length, but keeps the
    count of what was sent. As long as no retransmission is shorter than that count, every queued
    segment has at most its length sent, and the offered window and the queue fit the socket buffer.
    One that is shorter makes the unsigned difference of the forwarding loop huge; TcpStall says what
    becomes of the session then. */
module TcpRetransmit {
  import opened Words
  import opened Reassembly
  import opened TcpModel
  import opened TcpReceive
  import opened TcpUpstream

  /** The unsigned comparison of the loop, for every buffer a socket reports. */
  lemma FitsIff(s: Segment, buffer: BufferSize)
    ensures Fits(s, buffer) <==> s.sent <= |s.data| && |s.data| - s.sent < buffer
  {
    if s.sent > |s.data| {
      assert (|s.data| - s.sent) % TWO32 == |s.data| - s.sent + TWO32;
    }
  }

  /** p is not shorter than what was sent of the segment it repeats. */
  predicate LongEnough(q: seq<Segment>, p: Packet) {
    p.data != [] ==> forall s <- q :: s.seqno == p.seqno ==> s.sent <= |p.data|
  }

  predicate RunLongEnough(m: Machine, es: seq<Event>)
    decreases |es|
  {
    es != [] ==>
      && (es[0].FromTun? ==> LongEnough(m.t.forward, es[0].p))
      && RunLongEnough(Step(m, es[0]), es[1..])
  }

  lemma EnqueueSent(m: Machine, p: Packet)
    requires SentWithin(m.t.forward) && LongEnough(m.t.forward, p)
    ensures SentWithin(Enqueue(m, p).t.forward)
  {
    hide Insert;
    InsertElements(m.t.forward, p.seqno, p.data, p.psh);
  }

  lemma {:induction false} DrainSent(q: seq<Segment>, remote: u32, buffer: BufferSize, sends: seq<SendResult>)
    requires SentWithin(q)
    ensures SentWithin(Drain(q, remote, buffer, sends).rest)
    decreases |q|
  {
    if q != [] && q[0].seqno == remote && Fits(q[0], buffer) && sends != [] && sends[0].Sent? {
      var n := Taken(q[0], sends[0].n);
      if q[0].sent + n == |q[0].data| {
        DrainSent(q[1..], Wrap(q[0].seqno + |q[0].data|), buffer - n, sends[1..]);
      }
    }
  }

  /** Most steps do not touch the queue. */
  predicate SameQueue(a: Machine, b: Machine) {
    b.t.forward == a.t.forward
  }

  lemma ResetQueue(m: Machine, ok: bool)
    ensures SameQueue(m, WriteRst(m, ok)) && SameQueue(m, TakeEof(m, ok))
  {
    hide Outgoing;
  }

  lemma TakeFlagsQueue(m: Machine, p: Packet, ok: bool)
    ensures SameQueue(m, TakeFlags(m, p, ok))
  {
    hide Outgoing, Wrap;
  }

  lemma FetchQueue(m: Machine, recv: RecvResult, filter: Filter, now: int, ok: bool)
    ensures SameQueue(m, Fetch(m, recv, filter, now, ok))
  {
    hide SendWindow, WriteRst, TakeEof, Outgoing;
    ResetQueue(m.(t := m.t.(time := now)), ok);
  }

  lemma AcknowledgeQueue(m: Machine, fwd: bool, k: Kernel, now: int, ok: bool)
    ensures SameQueue(m, Acknowledge(m, fwd, k, now, ok))
  {
    hide ReceiveWindow, Outgoing;
  }

  lemma MonitorQueue(m: Machine, ms: int, k: Kernel, ctlOk: bool, ok: bool)
    ensures SameQueue(m, MonitorTcp(m, ms, k, ctlOk, ok).0)
  {
    hide SendWindow, CanForward, Outgoing;
  }

  lemma CheckTcpSessionQueue(m: Machine, now: int, timeout: int, ok: bool)
    ensures SameQueue(m, CheckTcpSession(m, now, timeout, ok).0)
  {
    hide WriteRst;
    ResetQueue(m, ok);
  }

  lemma HandleTcpSent(m: Machine, p: Packet, now: int, ok: bool)
    requires SentWithin(m.t.forward) && LongEnough(m.t.forward, p)
    ensures SentWithin(HandleTcp(m, p, now, ok).t.forward)
  {
    hide SentWithin, WriteRst, TakeFlags, QueueTcp, Shl32, LongEnough;
    var m1 := Refresh(m, p, now);
    ResetQueue(m, ok);
    ResetQueue(m1, ok);
    EnqueueSent(m1, p);
    TakeFlagsQueue(Enqueue(m1, p), p, ok);
  }

  lemma ForwardSent(m: Machine, k: Kernel, sends: seq<SendResult>, ok: bool)
    requires SentWithin(m.t.forward)
    ensures SentWithin(Forward(m, k, sends, ok).0.t.forward)
  {
    hide SentWithin, Drain, WriteRst;
    var d := Drain(m.t.forward, m.t.remoteSeq, ReceiveBuffer(m.t.open, k), sends);
    DrainSent(m.t.forward, m.t.remoteSeq, ReceiveBuffer(m.t.open, k), sends);
    ResetQueue(AfterDrain(m, d), ok);
  }

  lemma CheckTcpSocketSent(m: Machine, e: SocketEvent)
    requires SentWithin(m.t.forward)
    ensures SentWithin(CheckTcpSocket(m, e).t.forward)
  {
    hide SentWithin, Forward, Acknowledge, Fetch, SendWindow, WriteRst, Outgoing;
    ResetQueue(m.(t := m.t.(time := e.now)), e.rstOk);
    var (m1, fwd) := if e.writable then Forward(m, e.before, e.sends, e.rstOk) else (m, false);
    ForwardSent(m, e.before, e.sends, e.rstOk);
    AcknowledgeQueue(m1, fwd, e.after, e.now, e.ackOk);
    FetchQueue(Acknowledge(m1, fwd, e.after, e.now, e.ackOk), e.recv, e.filter, e.now, e.dataOk);
  }

  lemma StepSent(m: Machine, e: Event)
    requires SentWithin(m.t.forward) && (e.FromTun? ==> LongEnough(m.t.forward, e.p))
    ensures SentWithin(Step(m, e).t.forward)
  {
    hide SentWithin, LongEnough, HandleTcp, CheckTcpSocket, MonitorTcp, CheckTcpSession, WriteRst;
    match e
    case FromTun(p, now, ok) => HandleTcpSent(m, p, now, ok);
    case FromSocket(ev) => CheckTcpSocketSent(m, ev);
    case Monitor(ms, k, ctlOk, ok) => MonitorQueue(m, ms, k, ctlOk, ok);
    case Sweep(now, timeout, ok) => CheckTcpSessionQueue(m, now, timeout, ok);
    case Disallow(ok) => ResetQueue(m, ok);
  }

  lemma {:induction false} RunSent(m: Machine, es: seq<Event>)
    requires SentWithin(m.t.forward) && RunLongEnough(m, es)
    ensures SentWithin(Run(m, es).t.forward)
    decreases |es|
  {
    hide Step, SentWithin, LongEnough;
    if es != [] {
      StepSent(m, es[0]);
      RunSent(Step(m, es[0]), es[1..]);
    }
  }

  /** In every state that a run without shorter retransmissions reaches, and whatever the kernel reports:
      a positive window and all that is queued fit the socket buffer together, and a buffer that the
      queue fills closes the window. */
  lemma WindowNeverOverbooked(p: Packet, mss: u16, ws: u8, isn: u32, now: int, k: Kernel, es: seq<Event>, later: Kernel)
    requires RunLongEnough(NewSession(p, mss, ws, isn, now, k), es)
    requires ToForward(Run(NewSession(p, mss, ws, isn, now, k), es).t.forward) < TWO32
    ensures var t := Run(NewSession(p, mss, ws, isn, now, k), es).t;
            && 0 <= ToForward(t.forward)
            && (ReceiveWindow(t, later) > 0 ==>
                  ReceiveWindow(t, later) + ToForward(t.forward) <= ReceiveBuffer(t.open, later))
            && (ReceiveBuffer(t.open, later) <= ToForward(t.forward) ==> ReceiveWindow(t, later) == 0)
  {
    hide Run, RunLongEnough, ReceiveWindow, ReceiveBuffer, Shl32;
    var m := NewSession(p, mss, ws, isn, now, k);
    RunSent(m, es);
    ToForwardNonNegative(Run(m, es).t.forward);
    WindowAndQueueFit(Run(m, es).t, later);
  }

  // ---- Exactly which packets ----

  /** The data of p reaches `queue_tcp`. */
  predicate Queued(t: Tcp, p: Packet) {
    !p.urg && !Closed(t.state) && p.data != [] && t.open && !t.state.CloseWait?
  }

  /** p repeats the first segment, where the forwarding stands, and is shorter than what was sent of it. */
  predicate Shortens(t: Tcp, p: Packet) {
    && Queued(t, p) && t.forward != []
    && t.forward[0].seqno == t.remoteSeq == p.seqno && t.forward[0].sent > |p.data|
  }

  lemma RefillsFirst(q: seq<Segment>, data: Payload, psh: bool)
    requires q != []
    ensures QueueTcp(q, q[0].seqno, q[0].seqno, data, psh) == [Refill(q[0], data)] + q[1..]
  {
  }

  /** Queueing keeps every segment sent at most up to its length, except exactly when it replaces the
      first one by less than what was sent of it. */
  lemma QueueTcpSentIff(q: seq<Segment>, remote: u32, seqno: u32, data: Payload, psh: bool)
    requires SentWithin(q) && OnlyHeadSent(q, remote)
    ensures SentWithin(QueueTcp(q, remote, seqno, data, psh)) <==>
            !(q != [] && q[0].seqno == remote && seqno == remote && q[0].sent > |data|)
  {
    hide Insert;
    var r := QueueTcp(q, remote, seqno, data, psh);
    if q != [] && q[0].seqno == remote && seqno == remote {
      RefillsFirst(q, data, psh);
      assert r[0] in r && q[0] in q;
      assert r[1..] == q[1..];
    } else {
      InsertElements(q, seqno, data, psh);
      forall s | s in r
        ensures s.sent <= |s.data|
      {
        if s !in q && s != Segment(seqno, data, 0, psh) {
          var o :| o in q && o.seqno == seqno && s == o.(data := data);
          assert o == q[0] || o in q[1..];
        }
      }
    }
  }

  lemma HandleTcpSentIff(m: Machine, p: Packet, now: int, ok: bool)
    requires SentWithin(m.t.forward) && OnlyHeadSent(m.t.forward, m.t.remoteSeq)
    ensures SentWithin(HandleTcp(m, p, now, ok).t.forward) <==> !Shortens(m.t, p)
  {
    hide SentWithin, OnlyHeadSent, WriteRst, TakeFlags, QueueTcp, Shl32;
    var m1 := Refresh(m, p, now);
    ResetQueue(m, ok);
    ResetQueue(m1, ok);
    TakeFlagsQueue(Enqueue(m1, p), p, ok);
    QueueTcpSentIff(m.t.forward, m.t.remoteSeq, p.seqno, p.data, p.psh);
  }

  lemma SentAtRemote(m: Machine, stream: seq<u8>)
    requires Upstream(m, stream)
    ensures OnlyHeadSent(m.t.forward, m.t.remoteSeq)
  {
    hide Genuine, Ascending;
  }

  lemma StepSentIff(m: Machine, e: Event, stream: seq<u8>)
    requires Upstream(m, stream) && SentWithin(m.t.forward)
    ensures SentWithin(Step(m, e).t.forward) <==> !(e.FromTun? && Shortens(m.t, e.p))
  {
    hide Upstream, SentWithin, HandleTcp, CheckTcpSocket, MonitorTcp, CheckTcpSession, DisallowTcp;
    if e.FromTun? {
      SentAtRemote(m, stream);
      HandleTcpSentIff(m, e.p, e.now, e.ok);
    } else {
      StepSent(m, e);
    }
  }

  /** In every state of the run each segment is sent at most up to its length. */
  predicate SentThroughout(m: Machine, es: seq<Event>)
    decreases |es|
  {
    SentWithin(m.t.forward) && (es != [] ==> SentThroughout(Step(m, es[0]), es[1..]))
  }

  predicate SomeShortens(m: Machine, es: seq<Event>)
    decreases |es|
  {
    es != [] && ((es[0].FromTun? && Shortens(m.t, es[0].p)) || SomeShortens(Step(m, es[0]), es[1..]))
  }

  lemma {:induction false} RunSentFrom(m: Machine, es: seq<Event>, stream: seq<u8>)
    requires Upstream(m, stream) && SentWithin(m.t.forward) && RunFromClient(m, es, stream)
    ensures SentThroughout(m, es) <==> !SomeShortens(m, es)
    decreases |es|
  {
    hide Step, Upstream, SentWithin, FromClient, Shortens;
    if es != [] {
      StepSentIff(m, es[0], stream);
      StepUpstream(m, es[0], stream);
      if SentWithin(Step(m, es[0]).t.forward) {
        RunSentFrom(Step(m, es[0]), es[1..], stream);
      }
    }
  }

  /** Over every run of one client's stream: every segment stays sent at most up to its length if and
      only if no packet shortens the first segment below what was sent of it. */
  lemma SentThroughoutIffNoneShortens(p: Packet, mss: u16, ws: u8, isn: u32, now: int, k: Kernel, es: seq<Event>,
                                      stream: seq<u8>)
    requires p.data == [] && RunFromClient(NewSession(p, mss, ws, isn, now, k), es, stream)
    ensures var m := NewSession(p, mss, ws, isn, now, k);
            SentThroughout(m, es) <==> !SomeShortens(m, es)
  {
    hide Upstream, SentThroughout, SomeShortens, RunFromClient;
    NewSessionUpstream(p, mss, ws, isn, now, k, stream);
    RunSentFrom(NewSession(p, mss, ws, isn, now, k), es, stream);
  }
}
