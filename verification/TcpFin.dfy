/** When counting the client's FIN is right.

    `handle_tcp` looks at the acknowledgement number of a FIN but not at its sequence number. A FIN
    that overtakes lost data is therefore counted too early, and its acknowledgement covers bytes the
    socket never got. This module gives such a run, and the exact condition under which it is right. */
module TcpFin {
  import opened Words
  import opened Serial
  import opened Reassembly
  import opened TcpModel
  import opened TcpExamples
  import opened TcpLifecycle
  import opened TcpUpstream

  /** The stream offset at which the queue ends. */
  function Target(q: seq<Segment>, base: int, at: int): int {
    if q == [] then at else at + Key(q[|q| - 1], Wrap(base + at)) + |q[|q| - 1].data|
  }

  function FinTarget(m: Machine): int {
    Target(m.t.forward, Base(m.t), Forwarded(m))
  }

  /** Where the queue ends, as a 32-bit sequence number. */
  function QueueEnd(t: Tcp): u32 {
    if t.forward == [] then t.remoteSeq
    else Wrap(t.forward[|t.forward| - 1].seqno + |t.forward[|t.forward| - 1].data|)
  }

  /** The check the code does not make: the FIN directly follows all data received. */
  predicate FinInOrder(t: Tcp, p: Packet) {
    Wrap(p.seqno + |p.data|) == QueueEnd(t)
  }

  /** Removing the first segment does not move the end of the queue. */
  lemma PopTarget(q: seq<Segment>, base: int, at: nat, stream: seq<u8>)
    requires q != [] && q[0].seqno == Wrap(base + at)
    requires Held(q, Wrap(base + at), at, stream)
    ensures Target(q[1..], base, at + |q[0].data|) == Target(q, base, at)
  {
    var n := |q| - 1;
    if n > 0 {
      assert q[n] in q && Genuine(q[n], Wrap(base + at), at, stream);
      assert Key(q[0], Wrap(base + at)) < Key(q[n], Wrap(base + at));
      GenuineShift(q[n], base, at, |q[0].data|, stream);
    }
  }

  /** Forwarding data does not move the end of the queue in the stream. */
  lemma {:induction false} DrainTarget(q: seq<Segment>, base: int, at: nat, buffer: BufferSize,
                                       sends: seq<SendResult>, stream: seq<u8>)
    requires Held(q, Wrap(base + at), at, stream)
    ensures var d := Drain(q, Wrap(base + at), buffer, sends);
            Target(d.rest, base, at + Partial(q) + |d.accepted| - Partial(d.rest)) == Target(q, base, at)
    decreases |q|
  {
    hide Held, Target;
    if q == [] || q[0].seqno != Wrap(base + at) || !Fits(q[0], buffer) || sends == [] || !sends[0].Sent? {
      return;
    }
    var n := Taken(q[0], sends[0].n);
    if q[0].sent + n == |q[0].data| {
      var mid := at + |q[0].data|;
      PopHolds(q, base, at, stream);
      PopTarget(q, base, at, stream);
      WrapAdd(base + at, |q[0].data|);
      assert base + mid == base + at + |q[0].data|;
      DrainTarget(q[1..], base, mid, buffer - n, sends[1..], stream);
    } else {
      PartialTarget(q, base, at, n);
    }
  }

  lemma PartialTarget(q: seq<Segment>, base: int, at: nat, n: nat)
    requires q != [] && q[0].sent + n <= |q[0].data|
    ensures Target([q[0].(sent := q[0].sent + n)] + q[1..], base, at) == Target(q, base, at)
  {
  }

  /** After the FIN was taken: the stream offset at which it is, or will be, counted. */
  predicate FinHeld(m: Machine, target: int) {
    && (m.t.state.CloseWait? || m.t.state.LastAck? || Closed(m.t.state))
    && (m.t.state.CloseWait? ==> FinTarget(m) == target)
    && (m.log.finIn == 1 ==> |m.log.accepted| == target)
  }

  /** Nothing moves, so the target does not. */
  lemma Unmoving(a: Machine, b: Machine, target: int)
    requires FinHeld(a, target) && SameStream(a, b)
    requires b.t.state == a.t.state || Closed(b.t.state) || (a.t.state.CloseWait? && b.t.state.LastAck?)
    ensures FinHeld(b, target)
  {
  }

  lemma TakeFlagsFin(m: Machine, p: Packet, ok: bool, target: int)
    requires FinHeld(m, target)
    ensures FinHeld(TakeFlags(m, p, ok), target)
  {
    hide FinTarget, Outgoing, CompareU32;
    Unmoving(m, TakeFlags(m, p, ok), target);
  }

  lemma HandleTcpFin(m: Machine, p: Packet, now: int, ok: bool, target: int)
    requires FinHeld(m, target) && SocketMatchesState(m.t)
    ensures FinHeld(HandleTcp(m, p, now, ok), target)
  {
    hide FinTarget, Shl32, Outgoing, TakeFlags;
    var m1 := Refresh(m, p, now);
    Unmoving(m, m1, target);
    Unmoving(m, WriteRst(m, ok), target);
    Unmoving(m1, WriteRst(m1, ok), target);
    TakeFlagsFin(m1, p, ok, target);
  }

  lemma ForwardFin(m: Machine, k: Kernel, sends: seq<SendResult>, ok: bool, target: int, stream: seq<u8>)
    requires FinHeld(m, target) && Upstream(m, stream) && m.t.open
    ensures FinHeld(Forward(m, k, sends, ok).0, target)
    ensures Forward(m, k, sends, ok).0.log.finIn == m.log.finIn
  {
    hide Target, Drain, Outgoing, Held;
    var buffer := ReceiveBuffer(m.t.open, k);
    DrainProgress(m.t.forward, m.t.remoteSeq, buffer, sends);
    if m.t.state.CloseWait? && m.log.finIn == 0 {
      DrainTarget(m.t.forward, Base(m.t), Forwarded(m), buffer, sends, stream);
    }
  }

  /** The FIN is counted when the queue is empty, which is when everything up to the target is sent. */
  lemma AcknowledgeFin(m: Machine, fwd: bool, k: Kernel, now: int, ok: bool, target: int)
    requires FinHeld(m, target)
    ensures FinHeld(Acknowledge(m, fwd, k, now, ok), target)
  {
    hide Outgoing, ReceiveWindow;
  }

  lemma FetchFin(m: Machine, recv: RecvResult, filter: Filter, now: int, ok: bool, target: int)
    requires FinHeld(m, target) && m.t.state.CloseWait?
    ensures FinHeld(Fetch(m, recv, filter, now, ok), target)
  {
    hide FinTarget, Fetch;
    FetchReads(m, recv, filter, now, ok);
    Unmoving(m, Fetch(m, recv, filter, now, ok), target);
  }

  lemma CheckTcpSocketFin(m: Machine, e: SocketEvent, target: int, stream: seq<u8>)
    requires FinHeld(m, target) && Upstream(m, stream) && m.t.open
    ensures FinHeld(CheckTcpSocket(m, e), target)
  {
    hide FinHeld, Upstream, Forward, Acknowledge, Fetch, SendWindow;
    NotListening(m, target);
    if e.err {
      ResetFin(m, e, target);
    } else {
      var (m1, fwd) := if e.writable then Forward(m, e.before, e.sends, e.rstOk) else (m, false);
      var m2 := Acknowledge(m1, fwd, e.after, e.now, e.ackOk);
      ForwardFin(m, e.before, e.sends, e.rstOk, target, stream);
      AcknowledgeFin(m1, fwd, e.after, e.now, e.ackOk, target);
      NotListening(m2, target);
      if MayFetch(m2.t, e.readable) {
        FetchFin(m2, e.recv, e.filter, e.now, e.dataOk, target);
      }
    }
  }

  lemma NotListening(m: Machine, target: int)
    requires FinHeld(m, target)
    ensures !m.t.state.Listen? && !m.t.state.Established?
  {
  }

  lemma ResetFin(m: Machine, e: SocketEvent, target: int)
    requires FinHeld(m, target) && e.err
    ensures FinHeld(CheckTcpSocket(m, e), target)
  {
    hide Target, Outgoing;
    Unmoving(m, CheckTcpSocket(m, e), target);
  }

  lemma MonitorTcpFin(m: Machine, ms: int, k: Kernel, ctlOk: bool, ok: bool, target: int)
    requires FinHeld(m, target)
    ensures FinHeld(MonitorTcp(m, ms, k, ctlOk, ok).0, target)
  {
    hide FinTarget, SendWindow, CanForward, KeepAlive;
    KeepAliveSame(m, ms, ok);
    Unmoving(m, MonitorTcp(m, ms, k, ctlOk, ok).0, target);
  }

  lemma KeepAliveSame(m: Machine, ms: int, ok: bool)
    ensures SameStream(m, KeepAlive(m, ms, ok))
    ensures KeepAlive(m, ms, ok).t.state == m.t.state || KeepAlive(m, ms, ok).t.state.Closing?
  {
    hide Outgoing;
    WrapAdd(m.t.remoteSeq - 1, 1);
  }

  lemma CheckTcpSessionFin(m: Machine, now: int, timeout: int, ok: bool, target: int)
    requires FinHeld(m, target)
    ensures FinHeld(CheckTcpSession(m, now, timeout, ok).0, target)
  {
    hide Target, Outgoing;
    Unmoving(m, CheckTcpSession(m, now, timeout, ok).0, target);
  }

  lemma StepFin(m: Machine, e: Event, target: int, stream: seq<u8>)
    requires FinHeld(m, target) && Upstream(m, stream)
    ensures FinHeld(Step(m, e), target)
  {
    hide FinHeld, Upstream, HandleTcp, CheckTcpSocket, MonitorTcp, CheckTcpSession, WriteRst;
    match e
    case FromTun(p, now, ok) => CountsOf(m, stream); HandleTcpFin(m, p, now, ok, target);
    case FromSocket(ev) => if m.t.open { CheckTcpSocketFin(m, ev, target, stream); }
    case Monitor(ms, k, ctlOk, ok) => MonitorTcpFin(m, ms, k, ctlOk, ok, target);
    case Sweep(now, timeout, ok) => CheckTcpSessionFin(m, now, timeout, ok, target);
    case Disallow(ok) => DisallowFin(m, ok, target);
  }

  lemma DisallowFin(m: Machine, ok: bool, target: int)
    requires FinHeld(m, target)
    ensures FinHeld(DisallowTcp(m, ok), target)
  {
    hide Target, Outgoing;
    Unmoving(m, DisallowTcp(m, ok), target);
  }

  lemma {:induction false} RunFin(m: Machine, es: seq<Event>, target: int, stream: seq<u8>)
    requires FinHeld(m, target) && Upstream(m, stream) && RunFromClient(m, es, stream)
    ensures FinHeld(Run(m, es), target) && Upstream(Run(m, es), stream)
    decreases |es|
  {
    hide FinHeld, Upstream, Step, FromClient;
    if es != [] {
      StepUpstream(m, es[0], stream);
      StepFin(m, es[0], target, stream);
      RunFin(Step(m, es[0]), es[1..], target, stream);
    }
  }

  /** p is a FIN that `handle_tcp` takes. */
  predicate TakesFin(t: Tcp, p: Packet) {
    && p.fin && !p.urg && !p.rst && !p.syn && (!p.ack || p.ackno == t.localSeq)
    && (t.state.Established? || (t.state.FinWait1? && p.data == []))
  }

  /** p's FIN is the end of the client's stream, in the window. */
  predicate EndsStream(m: Machine, p: Packet, stream: seq<u8>) {
    && Wrap(p.seqno + |p.data|) == Wrap(Base(m.t) + |stream|)
    && |stream| - Forwarded(m) < 0x4000_0000
  }

  lemma LastGenuine(m: Machine, stream: seq<u8>)
    requires Upstream(m, stream) && m.t.forward != []
    ensures Genuine(m.t.forward[|m.t.forward| - 1], Edge(m), Forwarded(m), stream)
  {
    assert m.t.forward[|m.t.forward| - 1] in m.t.forward;
  }

  lemma EdgeIsRemote(m: Machine, stream: seq<u8>)
    requires Upstream(m, stream) && (m.t.state.Established? || m.t.state.FinWait1?)
    ensures m.t.remoteSeq == Edge(m)
  {
    hide Held;
  }

  /** The queue of a session in ESTABLISHED or FIN_WAIT1 ends at its target. */
  lemma QueueEndIsTarget(m: Machine, stream: seq<u8>)
    requires Upstream(m, stream) && (m.t.state.Established? || m.t.state.FinWait1?)
    ensures QueueEnd(m.t) == Wrap(Base(m.t) + FinTarget(m))
    ensures -0x1_0000 <= FinTarget(m) - Forwarded(m) < 0x4001_0000
  {
    hide Upstream, Base, Forwarded;
    var q, e := m.t.forward, Edge(m);
    EdgeIsRemote(m, stream);
    if q != [] {
      var last := q[|q| - 1];
      LastGenuine(m, stream);
      assert Wrap(Base(m.t) + Forwarded(m) + Key(last, e)) == last.seqno;
      WrapAdd(Base(m.t) + Forwarded(m) + Key(last, e), |last.data|);
    }
  }

  lemma InOrderIsTarget(m: Machine, p: Packet, stream: seq<u8>)
    requires Upstream(m, stream) && (m.t.state.Established? || m.t.state.FinWait1?)
    requires EndsStream(m, p, stream)
    ensures FinInOrder(m.t, p) <==> FinTarget(m) == |stream|
  {
    hide Held, FinTarget, QueueEnd;
    QueueEndIsTarget(m, stream);
    DeltaOfWraps(Base(m.t) + FinTarget(m), Base(m.t) + |stream|);
    assert |m.log.accepted| <= |stream|;
  }

  lemma TakeFinStarts(m: Machine, ok: bool, stream: seq<u8>)
    requires Upstream(m, stream) && (m.t.state.Established? || m.t.state.FinWait1?)
    ensures FinHeld(TakeFin(m, ok), FinTarget(m))
  {
    hide Held, Outgoing;
  }

  /** The FIN is taken on a machine that already queued the packet's data. */
  lemma HandleFin(m: Machine, p: Packet, now: int, ok: bool, stream: seq<u8>)
    requires Upstream(m, stream) && TakesFin(m.t, p)
    ensures HandleTcp(m, p, now, ok) == TakeFin(Enqueue(Refresh(m, p, now), p), ok)
  {
    hide Held, TakeFin, QueueTcp, Shl32;
  }

  /** For any continuation of the run: once the FIN is counted, the socket has the client's whole
      stream iff the FIN was in order when it arrived. */
  lemma FinCountedRightly(m: Machine, p: Packet, now: int, ok: bool, es: seq<Event>, stream: seq<u8>)
    requires Upstream(m, stream) && FromClient(m, p, stream)
    requires TakesFin(m.t, p) && EndsStream(m, p, stream)
    requires RunFromClient(HandleTcp(m, p, now, ok), es, stream)
    ensures var r := Run(HandleTcp(m, p, now, ok), es);
            r.log.finIn == 1 ==>
              (r.log.accepted == stream <==> FinInOrder(Enqueue(Refresh(m, p, now), p).t, p))
  {
    hide Upstream, FinInOrder, FinTarget, RunFromClient, TakeFin, HandleTcp, Run, Held;
    var m1 := Enqueue(Refresh(m, p, now), p);
    QueuesForFin(m, p, now, stream);
    TakeFinStarts(m1, ok, stream);
    HandleFin(m, p, now, ok, stream);
    HandleTcpUpstream(m, p, now, ok, stream);
    RunFin(HandleTcp(m, p, now, ok), es, FinTarget(m1), stream);
    InOrderIsTarget(m1, p, stream);
    var r := Run(HandleTcp(m, p, now, ok), es);
    IsPrefix(r, stream);
  }

  lemma QueuesForFin(m: Machine, p: Packet, now: int, stream: seq<u8>)
    requires Upstream(m, stream) && FromClient(m, p, stream)
    requires TakesFin(m.t, p) && EndsStream(m, p, stream)
    ensures var m1 := Enqueue(Refresh(m, p, now), p);
            && Upstream(m1, stream) && EndsStream(m1, p, stream)
            && (m1.t.state.Established? || m1.t.state.FinWait1?)
  {
    hide Held, Shl32, QueueTcp;
    EnqueueUpstream(Refresh(m, p, now), p, stream);
    EnqueuePartial(m, p, now, stream);
  }

  lemma EnqueuePartial(m: Machine, p: Packet, now: int, stream: seq<u8>)
    requires Upstream(m, stream) && FromClient(m, p, stream) && m.t.state != Listen
    ensures Partial(Enqueue(Refresh(m, p, now), p).t.forward) == Partial(m.t.forward)
  {
    if p.data != [] && m.log.finIn == 0 && m.log.synIn == 1 {
      DropsOldData(p.seqno, Base(m.t) + Forwarded(m), 0);
      if Delta(p.seqno, Edge(m)) >= 0 {
        InsertOnlyHeadSent(m.t.forward, p.seqno, p.data, p.psh, Edge(m));
      }
    }
  }

  lemma IsPrefix(m: Machine, stream: seq<u8>)
    requires Upstream(m, stream)
    ensures m.log.accepted <= stream
    ensures |m.log.accepted| == |stream| <==> m.log.accepted == stream
  {
  }

  // ---- A run in which the FIN is counted too early ----

  const LOST: seq<u8> := [7]

  function Bare(seqno: u32, ackno: u32, syn: bool, ack: bool, fin: bool): Packet {
    Packet(seqno, ackno, 1000, [], false, ack, false, false, syn, fin)
  }

  function OvertakingRun(): seq<Event> {
    [Writable([]),
     FromTun(Bare(1, 101, false, true, false), 0, true),
     FromTun(Bare(2, 101, false, true, true), 0, true)]
  }

  /** A session that has counted syn and fin and forwarded and queued nothing. */
  predicate Idle(m: Machine, s: State, remoteSeq: u32, fin: nat) {
    && m.t.state == s && m.t.open && m.t.remoteSeq == remoteSeq && m.t.localSeq == 101
    && m.t.forward == [] && m.log.accepted == [] && m.log.finIn == fin
  }

  lemma Connects()
    ensures var m0 := Opened(100);
            Idle(Step(m0, OvertakingRun()[0]), SynRecv, 1, 0)
  {
    hide ReceiveWindow, Outgoing;
  }

  lemma Establishes(m: Machine)
    requires Idle(m, SynRecv, 1, 0)
    ensures Idle(Step(m, OvertakingRun()[1]), Established, 1, 0)
  {
    hide Shl32, QueueTcp;
  }

  lemma CountsFin(m: Machine)
    requires Idle(m, Established, 1, 0)
    ensures var r := Step(m, OvertakingRun()[2]);
            && r.log.finIn == 1 && r.log.accepted == []
            && r.log.out != [] && r.log.out[|r.log.out| - 1].ack && r.log.out[|r.log.out| - 1].ackno == 2
  {
    hide Shl32, QueueTcp;
  }

  lemma NoDataIsFromClient(m: Machine, p: Packet)
    requires p.data == []
    ensures FromClient(m, p, LOST)
  {
  }

  /** The client sends a SYN, one byte that is lost, and a FIN. All segments are the client's own and
      in window, yet the FIN is counted, and sequence number 1, the lost byte, is acknowledged. */
  lemma FinOvertakesData()
    ensures var m0 := Opened(100);
            var m := Run(m0, OvertakingRun());
            && RunFromClient(m0, OvertakingRun(), LOST)
            && m.log.finIn == 1 && m.log.accepted == []
            && m.log.out != [] && m.log.out[|m.log.out| - 1].ack && m.log.out[|m.log.out| - 1].ackno == 2
  {
    hide Step, FromClient, Opened, Idle;
    var m0 := Opened(100);
    var es := OvertakingRun();
    var m1 := Step(m0, es[0]);
    var m2 := Step(m1, es[1]);
    var m3 := Step(m2, es[2]);
    Connects();
    Establishes(m1);
    CountsFin(m2);
    NoDataIsFromClient(m1, es[1].p);
    NoDataIsFromClient(m2, es[2].p);
    assert es[1..][1..] == [es[2]] && es[1..][0] == es[1] && [es[2]][1..] == [];
    assert Run(m3, []) == m3 && RunFromClient(m3, [], LOST);
    assert Run(m2, [es[2]]) == m3 && RunFromClient(m2, [es[2]], LOST);
    assert Run(m1, es[1..]) == m3 && RunFromClient(m1, es[1..], LOST);
  }
}
