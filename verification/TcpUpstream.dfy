/** Client to socket: sequence accounting, and safety of the forwarded byte stream, over whole runs. */
module TcpUpstream {
  import opened Words
  import opened Serial
  import opened Reassembly
  import opened TcpModel
  import opened TcpLifecycle

  /** The offset of the first stream byte in unbounded sequence space. */
  function Base(t: Tcp): int {
    t.remoteStart + 1
  }

  /** How many stream bytes lie in segments that are forwarded completely. */
  function Forwarded(m: Machine): int {
    |m.log.accepted| - Partial(m.t.forward)
  }

  function Edge(m: Machine): u32 {
    Wrap(Base(m.t) + Forwarded(m))
  }

  /** `remote_seq` is the initial number plus one for a counted SYN, plus the completely forwarded
      bytes, plus one for a counted FIN, modulo 2^32; SYN and FIN are counted at most once. */
  predicate Accounted(m: Machine) {
    && m.log.finIn <= m.log.synIn <= 1
    && Forwarded(m) >= 0
    && m.t.remoteSeq == Wrap(m.t.remoteStart + m.log.synIn + Forwarded(m) + m.log.finIn)
    && (m.log.finIn == 1 ==> m.t.forward == [])
    && (m.log.synIn == 0 ==> m.log.accepted == [])
  }

  /** Which states have counted what. */
  predicate CountedByState(t: Tcp, synIn: nat, finIn: nat) {
    match t.state
    case Listen => synIn == 0 && finIn == 0
    case SynRecv => synIn == 1 && finIn == 0
    case Established => synIn == 1 && finIn == 0
    case FinWait1 => synIn == 1 && finIn == 0
    case CloseWait => synIn == 1
    case LastAck => synIn == 1
    case _ => true
  }

  /** Before the SYN is counted no queued segment may sit at the position of the SYN. */
  predicate NothingOnSyn(m: Machine) {
    m.log.synIn == 0 ==> forall s <- m.t.forward :: Key(s, Edge(m)) >= 0
  }

  /** The socket has a prefix of the client's stream and the queue continues it. */
  predicate PrefixSafe(m: Machine, stream: seq<u8>) {
    && Accounted(m)
    && SocketMatchesState(m.t)
    && CountedByState(m.t, m.log.synIn, m.log.finIn)
    && NothingOnSyn(m)
    && m.log.accepted <= stream
    && Held(m.t.forward, Edge(m), Forwarded(m), stream)
  }

  /** In CLOSE_WAIT the FIN is counted iff the queue is empty. */
  predicate FinWhenDrained(m: Machine) {
    m.t.state.CloseWait? ==> (m.log.finIn == 1 <==> m.t.forward == [])
  }

  predicate Upstream(m: Machine, stream: seq<u8>) {
    PrefixSafe(m, stream) && FinWhenDrained(m)
  }

  /** The data of p are bytes of the client's stream, at the position that p's sequence number names
      within 2^30 of the edge. Data in front of the first stream byte, on the SYN, is excluded. */
  predicate FromClient(m: Machine, p: Packet, stream: seq<u8>) {
    p.data != [] ==>
      var d := Delta(p.seqno, Edge(m));
      && -0x4000_0000 < d < 0x4000_0000
      && 0 <= Forwarded(m) + d
      && (d >= 0 ==> Matches(p.data, Forwarded(m) + d, stream))
  }

  predicate RunFromClient(m: Machine, es: seq<Event>, stream: seq<u8>)
    decreases |es|
  {
    es != [] ==>
      && (es[0].FromTun? ==> FromClient(m, es[0].p, stream))
      && RunFromClient(Step(m, es[0]), es[1..], stream)
  }

  /** b has the same stream, queue and counts as a. */
  predicate SameStream(a: Machine, b: Machine) {
    && b.t.forward == a.t.forward && b.t.remoteSeq == a.t.remoteSeq && b.t.remoteStart == a.t.remoteStart
    && b.log.accepted == a.log.accepted && b.log.synIn == a.log.synIn && b.log.finIn == a.log.finIn
  }

  /** The stream does not care about windows, timers, the local side or an early close. */
  lemma Unmoved(a: Machine, b: Machine, stream: seq<u8>)
    requires Upstream(a, stream) && SameStream(a, b)
    requires SocketMatchesState(b.t) && CountedByState(b.t, b.log.synIn, b.log.finIn)
    requires b.t.state.CloseWait? ==> a.t.state.CloseWait?
    ensures Upstream(b, stream)
  {
    hide Held;
  }

  // ---- Single actions ----

  lemma WriteRstUpstream(m: Machine, ok: bool, stream: seq<u8>)
    requires PrefixSafe(m, stream)
    ensures PrefixSafe(WriteRst(m, ok), stream) && FinWhenDrained(WriteRst(m, ok))
  {
    hide Held, Outgoing, Wrap, Delta;
    if m.t.state.Listen? {
      WrapAdd(m.t.remoteStart + m.log.synIn + Forwarded(m) + m.log.finIn, 1);
      assert m.t.remoteStart + m.log.synIn + Forwarded(m) + m.log.finIn + 1
             == m.t.remoteStart + (m.log.synIn + 1) + Forwarded(m) + m.log.finIn;
    }
  }

  /** `queue_tcp` drops exactly what lies before `remote_seq`, which is n before the edge. */
  lemma DropsOldData(seqno: u32, edge: int, n: int)
    requires -0x4000_0000 < Delta(seqno, Wrap(edge)) < 0x4000_0000 && 0 <= n <= 1
    ensures CompareU32(seqno, Wrap(edge - n)) < 0 <==> Delta(seqno, Wrap(edge)) < -n
  {
    DeltaShift(seqno, edge, -n);
    CompareIsSignOfDelta(seqno, Wrap(edge - n));
  }

  /** A queue that holds the same stretch of the stream may replace the present one. */
  lemma Requeued(m: Machine, q: seq<Segment>, stream: seq<u8>)
    requires Upstream(m, stream) && m.log.finIn == 0
    requires m.t.open && !m.t.state.CloseWait?
    requires Held(q, Edge(m), Forwarded(m), stream) && Partial(q) == Partial(m.t.forward)
    requires m.log.synIn == 0 ==> forall s <- q :: Key(s, Edge(m)) >= 0
    ensures Upstream(m.(t := m.t.(forward := q)), stream)
  {
    hide Held, Delta;
  }

  /** Queuing genuine client data, in the states in which data is queued. */
  lemma EnqueueUpstream(m: Machine, p: Packet, stream: seq<u8>)
    requires Upstream(m, stream) && FromClient(m, p, stream)
    requires p.data != [] ==> m.t.open && !m.t.state.CloseWait? && !Closed(m.t.state)
    ensures Upstream(Enqueue(m, p), stream)
  {
    hide Insert;
    if p.data != [] {
      var q, at, e := m.t.forward, Forwarded(m), Edge(m);
      DropsOldData(p.seqno, Base(m.t) + at, 1 - m.log.synIn);
      if CompareU32(p.seqno, m.t.remoteSeq) >= 0 {
        QueueTcpHolds(q, p.seqno, p.data, p.psh, e, at, stream);
        InsertElements(q, p.seqno, p.data, p.psh);
        Requeued(m, Insert(q, p.seqno, p.data, p.psh), stream);
      }
    }
  }

  lemma TakeFinUpstream(m: Machine, ok: bool, stream: seq<u8>)
    requires Upstream(m, stream)
    ensures Upstream(TakeFin(m, ok), stream)
  {
    hide Held, Outgoing;
    WrapAdd(m.t.remoteStart + m.log.synIn + Forwarded(m) + m.log.finIn, 1);
  }

  lemma TakeAckUpstream(m: Machine, ackno: u32, stream: seq<u8>)
    requires Upstream(m, stream)
    ensures Upstream(TakeAck(m, ackno), stream)
  {
    hide PrefixSafe, FinWhenDrained;
    CountsOf(m, stream);
    Unmoved(m, TakeAck(m, ackno), stream);
  }

  lemma TakeOtherAckUpstream(m: Machine, ackno: u32, ok: bool, stream: seq<u8>)
    requires Upstream(m, stream)
    ensures Upstream(TakeOtherAck(m, ackno, ok), stream)
  {
    hide PrefixSafe, FinWhenDrained, WriteRst, CompareU32;
    CountsOf(m, stream);
    WriteRstUpstream(m, ok, stream);
    Unmoved(m, m.(t := m.t.(acked := ackno)), stream);
  }

  lemma TakeFlagsUpstream(m: Machine, p: Packet, ok: bool, stream: seq<u8>)
    requires Upstream(m, stream)
    ensures Upstream(TakeFlags(m, p, ok), stream)
  {
    hide Upstream, TakeFin, TakeAck, TakeOtherAck;
    if p.rst {
      CountsOf(m, stream);
      Unmoved(m, m.(t := m.t.(state := Closing)), stream);
    }
    TakeFinUpstream(m, ok, stream);
    TakeAckUpstream(m, p.ackno, stream);
    TakeOtherAckUpstream(m, p.ackno, ok, stream);
  }

  lemma HandleTcpUpstream(m: Machine, p: Packet, now: int, ok: bool, stream: seq<u8>)
    requires Upstream(m, stream) && FromClient(m, p, stream)
    ensures Upstream(HandleTcp(m, p, now, ok), stream)
  {
    hide Held, TakeFlags, WriteRst, Shl32, Delta;
    WriteRstUpstream(m, ok, stream);
    if !Closed(m.t.state) {
      var m1 := Refresh(m, p, now);
      WriteRstUpstream(m1, ok, stream);
      if p.data == [] || (m1.t.open && !m1.t.state.CloseWait?) {
        EnqueueUpstream(m1, p, stream);
        TakeFlagsUpstream(Enqueue(m1, p), p, ok, stream);
      }
    }
  }

  /** The loop reports progress iff it removed or marked something. */
  lemma DrainProgress(q: seq<Segment>, remote: u32, buffer: BufferSize, sends: seq<SendResult>)
    ensures var d := Drain(q, remote, buffer, sends);
            && (q == [] ==> d == Drained([], remote, [], false, false))
            && (q != [] && d.rest == [] ==> d.fwd)
  {
  }

  /** While the SYN is not counted nothing can be forwarded. */
  lemma NoDrainBeforeSyn(m: Machine, buffer: BufferSize, sends: seq<SendResult>, stream: seq<u8>)
    requires PrefixSafe(m, stream) && m.log.synIn == 0
    ensures Drain(m.t.forward, m.t.remoteSeq, buffer, sends).rest == m.t.forward
    ensures Drain(m.t.forward, m.t.remoteSeq, buffer, sends).remote == m.t.remoteSeq
    ensures Drain(m.t.forward, m.t.remoteSeq, buffer, sends).accepted == []
  {
    hide Held;
    if m.t.forward != [] {
      assert m.t.forward[0] in m.t.forward;
      DeltaOfWraps(m.t.remoteStart, Base(m.t));
    }
  }

  lemma DrainedUpstream(m: Machine, buffer: BufferSize, sends: seq<SendResult>, stream: seq<u8>)
    requires PrefixSafe(m, stream) && m.t.open
    ensures PrefixSafe(AfterDrain(m, Drain(m.t.forward, m.t.remoteSeq, buffer, sends)), stream)
  {
    hide Held, Drain, Delta;
    var d := Drain(m.t.forward, m.t.remoteSeq, buffer, sends);
    DrainProgress(m.t.forward, m.t.remoteSeq, buffer, sends);
    assert m.log.accepted + [] == m.log.accepted;
    if m.log.synIn == 0 {
      NoDrainBeforeSyn(m, buffer, sends, stream);
    } else if m.log.finIn == 0 {
      var at' := DrainAdvances(m.t.forward, Base(m.t), Forwarded(m), buffer, sends, stream);
      assert m.log.accepted + d.accepted == stream[..at' + Partial(d.rest)];
    }
  }

  lemma ForwardUpstream(m: Machine, k: Kernel, sends: seq<SendResult>, ok: bool, stream: seq<u8>)
    requires Upstream(m, stream) && m.t.open
    ensures var (r, fwd) := Forward(m, k, sends, ok);
            && PrefixSafe(r, stream)
            && (r.t.state.CloseWait? ==> (r.log.finIn == 1 <==> r.t.forward == [] && !fwd))
  {
    hide Held, Drain, WriteRst, PrefixSafe;
    var d := Drain(m.t.forward, m.t.remoteSeq, ReceiveBuffer(m.t.open, k), sends);
    DrainProgress(m.t.forward, m.t.remoteSeq, ReceiveBuffer(m.t.open, k), sends);
    DrainedUpstream(m, ReceiveBuffer(m.t.open, k), sends, stream);
    WriteRstUpstream(AfterDrain(m, d), ok, stream);
    ResetIsFinal(AfterDrain(m, d), ok);
    assert m.t.state.CloseWait? && d.fwd ==> m.t.forward != [];
    CountedFinEmpties(m, stream);
  }

  lemma CountedFinEmpties(m: Machine, stream: seq<u8>)
    requires PrefixSafe(m, stream)
    ensures m.log.finIn == 1 ==> m.t.forward == []
  {
  }

  lemma ResetIsFinal(m: Machine, ok: bool)
    ensures Closed(WriteRst(m, ok).t.state)
  {
  }

  lemma ConfirmFinUpstream(m: Machine, fwd: bool, stream: seq<u8>)
    requires PrefixSafe(m, stream)
    requires m.t.state.CloseWait? ==> (m.log.finIn == 1 <==> m.t.forward == [] && !fwd)
    ensures Upstream(ConfirmFin(m, fwd), stream)
  {
    hide Held;
    WrapAdd(m.t.remoteStart + m.log.synIn + Forwarded(m) + m.log.finIn, 1);
  }

  lemma AcknowledgeUpstream(m: Machine, fwd: bool, k: Kernel, now: int, ok: bool, stream: seq<u8>)
    requires PrefixSafe(m, stream) && m.t.open
    requires m.t.state.CloseWait? ==> (m.log.finIn == 1 <==> m.t.forward == [] && !fwd)
    ensures Upstream(Acknowledge(m, fwd, k, now, ok), stream)
  {
    hide Held, Outgoing, ReceiveWindow, ConfirmFin, Upstream, PrefixSafe;
    var m1 := m.(t := m.t.(recvWindow := ReceiveWindow(m.t, k)));
    SafeWithWindow(m, ReceiveWindow(m.t, k), stream);
    ConfirmFinUpstream(m1, fwd, stream);
    var m2 := ConfirmFin(m1, fwd);
    CountsOf(m2, stream);
    if fwd || (m.t.recvWindow == 0 && ReceiveWindow(m.t, k) > 0) {
      Unmoved(m2, Acknowledge(m, fwd, k, now, ok), stream);
    } else {
      ConfirmsNothing(m1);
    }
  }

  lemma SafeWithWindow(m: Machine, window: u32, stream: seq<u8>)
    requires PrefixSafe(m, stream)
    ensures PrefixSafe(m.(t := m.t.(recvWindow := window)), stream)
  {
    hide Held;
  }

  lemma ConfirmsNothing(m: Machine)
    ensures ConfirmFin(m, false) == m
  {
  }

  /** b can follow a when the socket is read: nothing changes towards the socket, and the session goes
      on, sends its FIN or is closing. */
  predicate AfterRead(a: Machine, b: Machine) {
    && SameStream(a, b)
    && (|| b.t.state.Closing?
        || (b.t.state == a.t.state && b.t.open == a.t.open)
        || (a.t.state.Established? && b.t.state.FinWait1? && !b.t.open && b.t.forward == [])
        || (a.t.state.CloseWait? && b.t.state.LastAck? && !b.t.open && b.t.forward == []))
  }

  lemma TakeEofReads(m: Machine, ok: bool)
    requires m.t.state.Established? || m.t.state.CloseWait?
    ensures AfterRead(m, TakeEof(m, ok))
  {
    hide Outgoing;
  }

  lemma TakeBytesReads(m: Machine, b: Payload, shown: Payload, ok: bool)
    requires m.t.state.Established? || m.t.state.CloseWait?
    ensures AfterRead(m, TakeBytes(m, b, shown, ok))
  {
    hide Outgoing;
  }

  lemma ResetReads(m: Machine, ok: bool)
    requires m.t.state.Established? || m.t.state.CloseWait?
    ensures AfterRead(m, WriteRst(m, ok))
  {
    hide Outgoing;
  }

  lemma FetchReads(m: Machine, recv: RecvResult, filter: Filter, now: int, ok: bool)
    requires m.t.state.Established? || m.t.state.CloseWait?
    ensures AfterRead(m, Fetch(m, recv, filter, now, ok))
  {
    hide SendWindow, TakeEof, TakeBytes, Shown, WriteRst;
    var m1 := m.(t := m.t.(time := now));
    TakeEofReads(m1, ok);
    ResetReads(m1, ok);
    if recv.Bytes? {
      var size := if SendWindow(m.t) > m.t.mss then m.t.mss else SendWindow(m.t);
      var b := if |recv.data| <= size then recv.data else recv.data[..size];
      TakeBytesReads(m1, b, Shown(b, filter), ok);
    }
  }

  lemma FetchUpstream(m: Machine, recv: RecvResult, filter: Filter, now: int, ok: bool, stream: seq<u8>)
    requires Upstream(m, stream) && (m.t.state.Established? || m.t.state.CloseWait?)
    ensures Upstream(Fetch(m, recv, filter, now, ok), stream)
  {
    hide PrefixSafe, FinWhenDrained, Fetch;
    CountsOf(m, stream);
    FetchReads(m, recv, filter, now, ok);
    Unmoved(m, Fetch(m, recv, filter, now, ok), stream);
  }

  lemma CountsOf(m: Machine, stream: seq<u8>)
    requires Upstream(m, stream)
    ensures SocketMatchesState(m.t) && CountedByState(m.t, m.log.synIn, m.log.finIn)
  {
  }

  lemma ConnectedUpstream(m: Machine, now: int, ok: bool, stream: seq<u8>)
    requires Upstream(m, stream) && m.t.state.Listen?
    ensures Upstream(Connected(m, now, ok), stream)
  {
    hide Held, Outgoing;
    WrapAdd(m.t.remoteStart + m.log.synIn + Forwarded(m) + m.log.finIn, 1);
  }

  lemma CheckTcpSocketUpstream(m: Machine, e: SocketEvent, stream: seq<u8>)
    requires Upstream(m, stream) && m.t.open
    ensures Upstream(CheckTcpSocket(m, e), stream)
  {
    hide PrefixSafe, Forward, Acknowledge, Fetch, SendWindow, WriteRst, Connected;
    if e.err {
      CountsOf(m, stream);
      var m1 := m.(t := m.t.(time := e.now));
      Unmoved(m, m1, stream);
      WriteRstUpstream(m1, e.rstOk, stream);
    } else if m.t.state.Listen? {
      ConnectedUpstream(m, e.now, e.ackOk, stream);
    } else {
      var (m1, fwd) := if e.writable then Forward(m, e.before, e.sends, e.rstOk) else (m, false);
      if e.writable {
        ForwardUpstream(m, e.before, e.sends, e.rstOk, stream);
        ForwardKeepsOpen(m, e.before, e.sends, e.rstOk);
      }
      AcknowledgeUpstream(m1, fwd, e.after, e.now, e.ackOk, stream);
      var m2 := Acknowledge(m1, fwd, e.after, e.now, e.ackOk);
      if MayFetch(m2.t, e.readable) {
        FetchUpstream(m2, e.recv, e.filter, e.now, e.dataOk, stream);
      }
    }
  }

  lemma ForwardKeepsOpen(m: Machine, k: Kernel, sends: seq<SendResult>, ok: bool)
    ensures Forward(m, k, sends, ok).0.t.open == m.t.open
  {
    hide Drain, Outgoing;
  }

  lemma KeepAliveUpstream(m: Machine, ms: int, ok: bool, stream: seq<u8>)
    requires Upstream(m, stream)
    ensures Upstream(KeepAlive(m, ms, ok), stream)
  {
    hide PrefixSafe, FinWhenDrained, Outgoing;
    CountsOf(m, stream);
    WrapAdd(m.t.remoteSeq - 1, 1);
    Unmoved(m, KeepAlive(m, ms, ok), stream);
  }

  lemma MonitorTcpUpstream(m: Machine, ms: int, k: Kernel, ctlOk: bool, ok: bool, stream: seq<u8>)
    requires Upstream(m, stream) && m.t.open
    ensures Upstream(MonitorTcp(m, ms, k, ctlOk, ok).0, stream)
  {
    hide Upstream, KeepAlive, SendWindow, CanForward;
    KeepAliveUpstream(m, ms, ok, stream);
    var m1 := if SendWindow(m.t) > 0 then m else KeepAlive(m, ms, ok);
    CountsOf(m, stream);
    CountsOf(m1, stream);
    var r := MonitorTcp(m, ms, k, ctlOk, ok).0;
    if m.t.state.Established? || m.t.state.CloseWait? {
      Unmoved(m1, r, stream);
    } else {
      Unmoved(m, r, stream);
    }
  }

  lemma CheckTcpSessionUpstream(m: Machine, now: int, timeout: int, ok: bool, stream: seq<u8>)
    requires Upstream(m, stream)
    ensures Upstream(CheckTcpSession(m, now, timeout, ok).0, stream)
  {
    hide PrefixSafe, FinWhenDrained, WriteRst;
    var m1 := Expire(m, now, timeout, ok);
    CountsOf(m, stream);
    if m1 == WriteRst(m, ok) {
      WriteRstUpstream(m, ok, stream);
    } else {
      Unmoved(m, m1, stream);
    }
    CountsOf(m1, stream);
    Unmoved(m1, CheckTcpSession(m, now, timeout, ok).0, stream);
  }

  lemma DisallowUpstream(m: Machine, ok: bool, stream: seq<u8>)
    requires Upstream(m, stream)
    ensures Upstream(DisallowTcp(m, ok), stream)
  {
    hide PrefixSafe, WriteRst;
    WriteRstUpstream(m, ok, stream);
  }

  // ---- Runs ----

  lemma StepUpstream(m: Machine, e: Event, stream: seq<u8>)
    requires Upstream(m, stream)
    requires e.FromTun? ==> FromClient(m, e.p, stream)
    ensures Upstream(Step(m, e), stream)
  {
    hide Upstream, FromClient, HandleTcp, CheckTcpSocket, MonitorTcp, CheckTcpSession, WriteRst;
    match e
    case FromTun(p, now, ok) => HandleTcpUpstream(m, p, now, ok, stream);
    case FromSocket(ev) => if m.t.open { CheckTcpSocketUpstream(m, ev, stream); }
    case Monitor(ms, k, ctlOk, ok) => if m.t.open { MonitorTcpUpstream(m, ms, k, ctlOk, ok, stream); }
    case Sweep(now, timeout, ok) => CheckTcpSessionUpstream(m, now, timeout, ok, stream);
    case Disallow(ok) => DisallowUpstream(m, ok, stream);
  }

  lemma {:induction false} RunUpstream(m: Machine, es: seq<Event>, stream: seq<u8>)
    requires Upstream(m, stream) && RunFromClient(m, es, stream)
    ensures Upstream(Run(m, es), stream)
    decreases |es|
  {
    hide Upstream, Step, FromClient;
    if es != [] {
      StepUpstream(m, es[0], stream);
      RunUpstream(Step(m, es[0]), es[1..], stream);
    }
  }

  lemma NewSessionUpstream(p: Packet, mss: u16, ws: u8, isn: u32, now: int, k: Kernel, stream: seq<u8>)
    requires p.data == []
    ensures Upstream(NewSession(p, mss, ws, isn, now, k), stream)
  {
    hide Shl32, ReceiveWindow;
  }

  lemma UpstreamMeans(m: Machine, stream: seq<u8>)
    requires Upstream(m, stream)
    ensures m.log.accepted <= stream
    ensures m.t.remoteSeq == Wrap(m.t.remoteStart + m.log.synIn + Forwarded(m) + m.log.finIn)
    ensures m.log.finIn <= m.log.synIn <= 1
    ensures m.t.state.CloseWait? ==> (m.log.finIn == 1 <==> m.t.forward == [])
  {
    hide Held;
  }

  /** For a client that puts no data on its SYN: whatever the order, overlap and repetition of its
      segments and whatever the socket calls return, the bytes the socket accepted are a prefix of
      the client's stream, and the sequence accounting holds, in every reachable state. */
  lemma UpstreamSafety(p: Packet, mss: u16, ws: u8, isn: u32, now: int, k: Kernel, es: seq<Event>, stream: seq<u8>)
    requires p.data == []
    requires RunFromClient(NewSession(p, mss, ws, isn, now, k), es, stream)
    ensures var m := Run(NewSession(p, mss, ws, isn, now, k), es);
            && m.log.accepted <= stream
            && m.t.remoteSeq == Wrap(p.seqno + m.log.synIn + Forwarded(m) + m.log.finIn)
            && m.log.finIn <= m.log.synIn <= 1
            && (m.t.state.CloseWait? ==> (m.log.finIn == 1 <==> m.t.forward == []))
  {
    hide Upstream, Run;
    var m := NewSession(p, mss, ws, isn, now, k);
    NewSessionUpstream(p, mss, ws, isn, now, k, stream);
    RunUpstream(m, es, stream);
    UpstreamMeans(Run(m, es), stream);
  }
}
