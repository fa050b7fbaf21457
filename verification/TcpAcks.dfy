/** What the session acknowledges to the client, and when that includes the client's FIN. */
module TcpAcks {
  import opened Words
  import opened Serial
  import opened Reassembly
  import opened TcpModel
  import opened TcpUpstream

  /** From a to b packets were only added, and those that acknowledge carry r, or r - 1. */
  predicate AcksAt(a: seq<Packet>, b: seq<Packet>, r: u32) {
    && a <= b
    && forall i :: |a| <= i < |b| && b[i].ack ==> b[i].ackno == r || Wrap(b[i].ackno + 1) == r
  }

  lemma AcksCompose(a: seq<Packet>, b: seq<Packet>, c: seq<Packet>, r: u32)
    requires AcksAt(a, b, r) && AcksAt(b, c, r)
    ensures AcksAt(a, c, r)
  {
    assert forall i :: 0 <= i < |b| ==> c[i] == b[i];
  }

  lemma WriteRstAcks(m: Machine, ok: bool)
    ensures var r := WriteRst(m, ok); AcksAt(m.log.out, r.log.out, r.t.remoteSeq)
  {
  }

  lemma WriteAckAcks(m: Machine, ok: bool)
    ensures var r := WriteAck(m, ok); AcksAt(m.log.out, r.log.out, r.t.remoteSeq)
    ensures WriteAck(m, ok).t.remoteSeq == m.t.remoteSeq
  {
  }

  lemma TakeFinAcks(m: Machine, ok: bool)
    ensures var r := TakeFin(m, ok); AcksAt(m.log.out, r.log.out, r.t.remoteSeq)
  {
    hide WriteAck;
    WriteAckAcks(CountFin(m), ok);
  }

  lemma TakeFlagsAcks(m: Machine, p: Packet, ok: bool)
    ensures var r := TakeFlags(m, p, ok); AcksAt(m.log.out, r.log.out, r.t.remoteSeq)
  {
    hide WriteRst, TakeFin, CompareU32;
    TakeFinAcks(m, ok);
    WriteRstAcks(m, ok);
  }

  lemma HandleTcpAcks(m: Machine, p: Packet, now: int, ok: bool)
    ensures var r := HandleTcp(m, p, now, ok); AcksAt(m.log.out, r.log.out, r.t.remoteSeq)
  {
    hide WriteRst, QueueTcp, Shl32, TakeFlags;
    WriteRstAcks(m, ok);
    WriteRstAcks(Refresh(m, p, now), ok);
    TakeFlagsAcks(Enqueue(Refresh(m, p, now), p), p, ok);
  }

  /** A connected session's forwarding loop writes at most a reset, which acknowledges nothing. */
  lemma ForwardAcks(m: Machine, k: Kernel, sends: seq<SendResult>, ok: bool, r: u32)
    requires !m.t.state.Listen?
    ensures AcksAt(m.log.out, Forward(m, k, sends, ok).0.log.out, r)
    ensures !Forward(m, k, sends, ok).0.t.state.Listen?
  {
    hide Drain;
  }

  lemma AcknowledgeAcks(m: Machine, fwd: bool, k: Kernel, now: int, ok: bool)
    ensures var r := Acknowledge(m, fwd, k, now, ok); AcksAt(m.log.out, r.log.out, r.t.remoteSeq)
    ensures !m.t.state.Listen? ==> !Acknowledge(m, fwd, k, now, ok).t.state.Listen?
  {
    hide WriteAck, ReceiveWindow;
    var m1 := m.(t := m.t.(recvWindow := ReceiveWindow(m.t, k)));
    WriteAckAcks(ConfirmFin(m1, fwd), ok);
    AckState(ConfirmFin(m1, fwd), ok);
  }

  lemma TakeEofAcks(m: Machine, ok: bool)
    requires !m.t.state.Listen?
    ensures var r := TakeEof(m, ok); AcksAt(m.log.out, r.log.out, m.t.remoteSeq) && r.t.remoteSeq == m.t.remoteSeq
  {
    hide WriteRst;
    WriteRstAcks(m, ok);
    ResetKeepsRemote(m, ok);
  }

  lemma ResetKeepsRemote(m: Machine, ok: bool)
    requires !m.t.state.Listen?
    ensures WriteRst(m, ok).t.remoteSeq == m.t.remoteSeq
  {
    hide Outgoing;
  }

  lemma TakeBytesAcks(m: Machine, b: Payload, shown: Payload, ok: bool)
    ensures var r := TakeBytes(m, b, shown, ok);
            AcksAt(m.log.out, r.log.out, m.t.remoteSeq) && r.t.remoteSeq == m.t.remoteSeq
  {
  }

  lemma FetchAcks(m: Machine, recv: RecvResult, filter: Filter, now: int, ok: bool)
    requires !m.t.state.Listen?
    ensures var r := Fetch(m, recv, filter, now, ok);
            AcksAt(m.log.out, r.log.out, m.t.remoteSeq) && r.t.remoteSeq == m.t.remoteSeq
  {
    hide SendWindow, TakeEof, TakeBytes, Shown, WriteRst, AcksAt;
    var m1 := m.(t := m.t.(time := now));
    TakeEofAcks(m1, ok);
    WriteRstAcks(m1, ok);
    ResetKeepsRemote(m1, ok);
    NothingWritten(m.log.out, m.t.remoteSeq);
    if recv.Bytes? {
      var size := if SendWindow(m.t) > m.t.mss then m.t.mss else SendWindow(m.t);
      var b := if |recv.data| <= size then recv.data else recv.data[..size];
      TakeBytesAcks(m1, b, Shown(b, filter), ok);
    }
  }

  lemma TransferAcks(m: Machine, e: SocketEvent)
    requires !m.t.state.Listen?
    ensures var r := Transfer(m, e); AcksAt(m.log.out, r.log.out, r.t.remoteSeq)
  {
    hide AcksAt, Forward, Acknowledge, Fetch, SendWindow;
    var (m1, fwd) := if e.writable then Forward(m, e.before, e.sends, e.rstOk) else (m, false);
    var m2 := Acknowledge(m1, fwd, e.after, e.now, e.ackOk);
    var r := m2.t.remoteSeq;
    ForwardAcks(m, e.before, e.sends, e.rstOk, r);
    AcknowledgeAcks(m1, fwd, e.after, e.now, e.ackOk);
    FetchAcks(m2, e.recv, e.filter, e.now, e.dataOk);
    NothingWritten(m.log.out, r);
    AcksCompose(m.log.out, m1.log.out, m2.log.out, r);
    AcksCompose(m.log.out, m2.log.out, Fetch(m2, e.recv, e.filter, e.now, e.dataOk).log.out, r);
  }

  lemma NothingWritten(a: seq<Packet>, r: u32)
    ensures AcksAt(a, a, r)
  {
  }

  lemma CheckTcpSocketAcks(m: Machine, e: SocketEvent)
    ensures var r := CheckTcpSocket(m, e); AcksAt(m.log.out, r.log.out, r.t.remoteSeq)
  {
    hide Transfer, WriteRst;
    if !m.t.state.Listen? {
      TransferAcks(m, e);
    }
    WriteRstAcks(m.(t := m.t.(time := e.now)), e.rstOk);
  }

  lemma MonitorTcpAcks(m: Machine, ms: int, k: Kernel, ctlOk: bool, ok: bool)
    ensures var r := MonitorTcp(m, ms, k, ctlOk, ok).0; AcksAt(m.log.out, r.log.out, r.t.remoteSeq)
  {
    hide SendWindow, CanForward;
  }

  /** Every acknowledgement a step emits carries the `remote_seq` of after the step, or one less. */
  lemma StepAcks(m: Machine, e: Event)
    ensures AcksAt(m.log.out, Step(m, e).log.out, Step(m, e).t.remoteSeq)
  {
    hide AcksAt, HandleTcp, CheckTcpSocket, MonitorTcp, WriteRst;
    NothingWritten(m.log.out, m.t.remoteSeq);
    match e
    case FromTun(p, now, ok) => HandleTcpAcks(m, p, now, ok);
    case FromSocket(ev) => CheckTcpSocketAcks(m, ev);
    case Monitor(ms, k, ctlOk, ok) => MonitorTcpAcks(m, ms, k, ctlOk, ok);
    case Sweep(now, timeout, ok) => WriteRstAcks(m, ok);
    case Disallow(ok) => WriteRstAcks(m, ok);
  }

  /** The sequence numbers of the client that are dealt with: a counted SYN, the bytes of the segments
      that the socket has accepted completely, and a counted FIN. */
  function Covered(m: Machine): int {
    m.log.synIn + Forwarded(m) + m.log.finIn
  }

  /** ackno acknowledges all that is covered, or all but the last of it. */
  predicate AcknowledgesCovered(ackno: u32, m: Machine) {
    || ackno == Wrap(m.t.remoteStart + Covered(m))
    || ackno == Wrap(m.t.remoteStart + Covered(m) - 1)
  }

  lemma AckOfAccounted(m: Machine, ackno: u32, stream: seq<u8>)
    requires Upstream(m, stream)
    requires ackno == m.t.remoteSeq || Wrap(ackno + 1) == m.t.remoteSeq
    ensures AcknowledgesCovered(ackno, m)
  {
    hide Upstream, Wrap, Forwarded;
    UpstreamMeans(m, stream);
    assert m.t.remoteStart + m.log.synIn + Forwarded(m) + m.log.finIn == m.t.remoteStart + Covered(m);
    OneBehind(ackno, m.t.remoteStart + Covered(m));
  }

  lemma OneBehind(ackno: u32, x: int)
    ensures Wrap(ackno + 1) == Wrap(x) ==> ackno == Wrap(x - 1)
  {
  }

  lemma CoveredIsAccepted(m: Machine, stream: seq<u8>)
    requires Upstream(m, stream)
    ensures 0 <= Forwarded(m) <= |m.log.accepted| && m.log.accepted <= stream
    ensures m.log.finIn <= m.log.synIn <= 1
    ensures m.log.finIn == 1 ==> Forwarded(m) == |m.log.accepted|
  {
    hide Held;
  }

  /** In every run, however long: an acknowledgement that a step emits is the one of the exact unbounded
      offset that is covered after the step, or of the one before it for a keep-alive. What is covered is
      a counted SYN, bytes that the socket has accepted, which are a prefix of the client's stream, and a
      FIN that was counted. */
  lemma AckNeverAhead(p: Packet, mss: u16, ws: u8, isn: u32, now: int, k: Kernel, es: seq<Event>, e: Event,
                      stream: seq<u8>)
    requires p.data == []
    requires RunFromClient(NewSession(p, mss, ws, isn, now, k), es, stream)
    requires e.FromTun? ==> FromClient(Run(NewSession(p, mss, ws, isn, now, k), es), e.p, stream)
    ensures var m := Run(NewSession(p, mss, ws, isn, now, k), es);
            var r := Step(m, e);
            && m.log.out <= r.log.out && r.t.remoteStart == p.seqno
            && (forall i :: |m.log.out| <= i < |r.log.out| && r.log.out[i].ack ==>
                  AcknowledgesCovered(r.log.out[i].ackno, r))
            && r.log.finIn <= r.log.synIn <= 1
            && 0 <= Forwarded(r) <= |r.log.accepted| && r.log.accepted <= stream
            && (r.log.finIn == 1 ==> Forwarded(r) == |r.log.accepted|)
  {
    hide Step, Upstream, FromClient, AcknowledgesCovered, Forwarded;
    var m0 := NewSession(p, mss, ws, isn, now, k);
    NewSessionUpstream(p, mss, ws, isn, now, k, stream);
    RunUpstream(m0, es, stream);
    var m := Run(m0, es);
    var r := Step(m, e);
    StepUpstream(m, e, stream);
    StepAcks(m, e);
    CoveredIsAccepted(r, stream);
    forall i | |m.log.out| <= i < |r.log.out| && r.log.out[i].ack
      ensures AcknowledgesCovered(r.log.out[i].ackno, r)
    {
      AckOfAccounted(r, r.log.out[i].ackno, stream);
    }
  }
}
