/** Send flow control: acknowledgements, the send window, and the data that is still unacknowledged. */
module TcpFlow {
  import opened Words
  import opened Serial
  import opened Reassembly
  import opened TcpModel
  import opened TcpLifecycle
  import opened TcpDownstream

  /** The scales under which a window never passes 2^31. Section 2.3 of RFC 7323 allows up to 14; the code
      takes whatever the client says, and from 31 on little or nothing of a window is left in 32 bits. */
  predicate Moderate(scale: u8) {
    scale <= 15 || scale >= 31
  }

  /** The most sequence numbers that the largest window leaves room for, besides a header. */
  function Limit(scale: u8): nat {
    if scale <= 15 then 0xFFFF * Pow2(scale) - 40 else 0x8000_0000 - 40
  }

  /** From ESTABLISHED until the session closes. */
  predicate Live(s: State) {
    s.Established? || s.CloseWait? || s.FinWait1? || s.LastAck?
  }

  /** Sequence numbers sent and not acknowledged. */
  function Outstanding(t: Tcp): u32 {
    Wrap(t.localSeq - t.acked)
  }

  predicate FlowBounded(t: Tcp) {
    && Moderate(t.sendScale)
    && t.sendWindow <= Limit(t.sendScale) + 40
    && (t.state.Established? || t.state.CloseWait? ==> Outstanding(t) <= Limit(t.sendScale))
    && (Live(t.state) ==> Outstanding(t) <= Limit(t.sendScale) + 1)
  }

  /** The one family of acknowledgement numbers, exactly half the number space away, that
      `compare_u32` places before `local_seq` and after `acked` although it is not between them. */
  predicate HalfSpaceAck(t: Tcp, ackno: u32) {
    t.localSeq == 0 && t.acked == 0xFFFF_FFFF && ackno == 0x8000_0000
  }

  /** p is such an acknowledgement and gets as far as that comparison. */
  predicate TakesHalfSpaceAck(t: Tcp, p: Packet) {
    && !p.urg && Live(t.state) && (p.data != [] ==> t.open && !t.state.CloseWait?)
    && !p.rst && p.ack && HalfSpaceAck(t, p.ackno)
  }

  /** What the code takes for an acknowledgement of data sent earlier. */
  predicate TakenAsPrevious(t: Tcp, ackno: u32) {
    && ackno != t.localSeq && Wrap(ackno + 1) != t.localSeq
    && CompareU32(ackno, t.localSeq) < 0 && CompareU32(ackno, t.acked) > 0
  }

  /** For any of the 2^32 acknowledgement numbers: one taken as a previous acknowledgement lies
      strictly between `acked` and `local_seq`, except exactly for the half-space pair. */
  lemma PreviousAckMovesForward(t: Tcp, ackno: u32)
    requires TakenAsPrevious(t, ackno)
    ensures 0 < Wrap(t.localSeq - ackno) < Outstanding(t) <==> !HalfSpaceAck(t, ackno)
  {
  }

  /** A scaled window stays within the limit; up to scale 15 nothing of it is lost. */
  lemma ScaledWindow(window: u16, scale: u8)
    requires Moderate(scale)
    ensures Shl32(window, scale) <= Limit(scale) + 40 <= 0x8000_0000
    ensures scale <= 15 ==> Shl32(window, scale) == window * Pow2(scale)
    ensures scale <= 14 ==> Limit(scale) + 40 < 0x4000_0000
  {
    hide Pow2;
    PowersOfScales();
    if scale <= 15 {
      Pow2Monotone(scale, 15);
      ProductBound(window, Pow2(scale), 0x8000);
      ProductMonotone(window, 0xFFFF, Pow2(scale));
      if scale <= 14 {
        Pow2Monotone(scale, 14);
        ProductBound(0xFFFF, Pow2(scale), 0x4000);
      }
    } else {
      Pow2Splits(31, scale - 31);
      HalfOrNothing(window * Pow2(scale - 31));
      Associate(window, Pow2(scale - 31));
    }
  }

  lemma PowersOfScales()
    ensures Pow2(14) == 0x4000 && Pow2(15) == 0x8000 && Pow2(31) == 0x8000_0000
  {
    assert Pow2(7) == 0x80;
    assert Pow2(15) == 0x8000;
    assert Pow2(23) == 0x80_0000;
  }

  lemma {:induction false} Pow2Splits(s: nat, t: nat)
    ensures Pow2(s + t) == Pow2(s) * Pow2(t)
  {
    if t > 0 {
      Pow2Splits(s, t - 1);
    }
  }

  lemma ProductBound(x: u16, p: nat, q: nat)
    requires p <= q
    ensures 0 <= x * p <= 0xFFFF * q
  {
  }

  lemma ProductMonotone(x: nat, y: nat, p: nat)
    requires x <= y
    ensures x * p <= y * p
  {
  }

  lemma Associate(x: nat, y: nat)
    ensures x * (0x8000_0000 * y) == (x * y) * 0x8000_0000
  {
  }

  /** Of a multiple of 2^31 only the lowest bit fits. */
  lemma HalfOrNothing(n: nat)
    ensures Wrap(n * 0x8000_0000) <= 0x8000_0000
  {
    assert n * 0x8000_0000 == n / 2 * TWO32 + n % 2 * 0x8000_0000;
  }

  /** What of the client's window is taken: the unacknowledged data, a header for each data packet since it was heard
      and one for the next, and 64 KiB more while the numbers acknowledged lie before a wrap. */
  function TakenUp(t: Tcp): nat {
    Outstanding(t) + 40 * (t.unconfirmed + 1) + if t.acked <= t.localSeq then 0 else 0x10000
  }

  /** The window of the code is exactly what that leaves, so never more than the client's window leaves. */
  lemma SendWindowLeavesRoom(t: Tcp)
    requires Outstanding(t) <= 0x8000_0000
    ensures SendWindow(t) == if TakenUp(t) < t.sendWindow then t.sendWindow - TakenUp(t) else 0
    ensures SendWindow(t) > 0 ==> Outstanding(t) + SendWindow(t) + 40 <= t.sendWindow
  {
    var header := (t.unconfirmed + 1) * 40;
    if t.acked <= t.localSeq {
      assert Outstanding(t) == t.localSeq - t.acked;
      assert Wrap(t.localSeq - t.acked + header) == Outstanding(t) + header;
    } else {
      assert Outstanding(t) == TWO32 + t.localSeq - t.acked;
      assert Wrap(0x10000 + t.localSeq - t.acked) == Outstanding(t) + 0x10000;
      assert Wrap(Outstanding(t) + 0x10000 + header) == Outstanding(t) + 0x10000 + header;
    }
  }

  /** To a client that offers at most 64 KiB and a header, something can be sent exactly if its window has room and no
      wrap lies between what it has acknowledged and what was sent. */
  lemma WrapClosesWindow(t: Tcp)
    requires Outstanding(t) <= 0x8000_0000 && t.sendWindow <= 0x10000 + 40
    ensures SendWindow(t) > 0 <==> t.acked <= t.localSeq && Outstanding(t) + 40 * (t.unconfirmed + 1) < t.sendWindow
  {
    hide SendWindow;
    SendWindowLeavesRoom(t);
  }

  /** The unbounded amount of sequence space the client has acknowledged. */
  function AckedUpto(m: Machine): int {
    Span(m.log.out) - Outstanding(m.t)
  }

  /** The bounds are kept, and if the session is still live it was live and `acked` did not go back. */
  predicate Steady(a: Machine, b: Machine) {
    && FlowBounded(b.t) && b.t.sendScale == a.t.sendScale
    && (Live(b.t.state) ==> Live(a.t.state) && AckedUpto(a) <= AckedUpto(b))
  }

  /** b differs from a in nothing that flow control looks at, or is further on its way to closing. */
  predicate SameFlow(a: Machine, b: Machine) {
    && b.t.localSeq == a.t.localSeq && b.t.acked == a.t.acked
    && b.t.sendScale == a.t.sendScale && b.t.sendWindow == a.t.sendWindow
    && Span(b.log.out) == Span(a.log.out)
    && (b.t.state == a.t.state || Closed(b.t.state) || (a.t.state.Established? && b.t.state.CloseWait?))
  }

  lemma WriteRstFlow(m: Machine, ok: bool)
    ensures SameFlow(m, WriteRst(m, ok))
  {
    var m1 := if m.t.state.Listen? then CountSyn(m) else m;
    Append(m.log.out, Outgoing(m1.t, [], false, m.t.state.Listen?, false, true), 0);
  }

  lemma WriteAckFlow(m: Machine, ok: bool)
    ensures SameFlow(m, WriteAck(m, ok))
  {
    Append(m.log.out, Outgoing(m.t, [], false, true, false, false), 0);
  }

  lemma TakeFinFlow(m: Machine, ok: bool)
    ensures SameFlow(m, TakeFin(m, ok))
  {
    hide WriteAck, Span;
    WriteAckFlow(CountFin(m), ok);
    AckState(CountFin(m), ok);
  }

  lemma ForwardFlow(m: Machine, k: Kernel, sends: seq<SendResult>, ok: bool)
    ensures SameFlow(m, Forward(m, k, sends, ok).0)
  {
    hide Drain, WriteRst, Span;
    var d := Drain(m.t.forward, m.t.remoteSeq, ReceiveBuffer(m.t.open, k), sends);
    WriteRstFlow(AfterDrain(m, d), ok);
  }

  lemma AcknowledgeFlow(m: Machine, fwd: bool, k: Kernel, now: int, ok: bool)
    ensures SameFlow(m, Acknowledge(m, fwd, k, now, ok))
  {
    hide WriteAck, ReceiveWindow, Span;
    WriteAckFlow(ConfirmFin(m.(t := m.t.(recvWindow := ReceiveWindow(m.t, k))), fwd), ok);
  }

  lemma KeepAliveFlow(m: Machine, ms: int, ok: bool)
    ensures SameFlow(m, KeepAlive(m, ms, ok))
  {
    hide WriteAck, Span;
    WriteAckFlow(m.(t := m.t.(lastKeepAlive := ms, remoteSeq := Wrap(m.t.remoteSeq - 1))), ok);
  }

  lemma SameFlowSteady(a: Machine, b: Machine)
    requires FlowBounded(a.t) && SameFlow(a, b)
    ensures Steady(a, b)
  {
  }

  /** Sending n more sequence numbers. */
  lemma AdvanceOutstanding(a: Tcp, b: Tcp, n: nat)
    requires b.localSeq == Wrap(a.localSeq + n) && b.acked == a.acked && Outstanding(a) + n < TWO32
    ensures Outstanding(b) == Outstanding(a) + n
  {
  }

  lemma TakeEofSteady(m: Machine, ok: bool)
    requires FlowBounded(m.t) && (m.t.state.Established? || m.t.state.CloseWait?)
    ensures Steady(m, TakeEof(m, ok))
  {
    hide WriteRst, Span, Outgoing;
    if m.t.forward == [] && ok {
      EofSteady(m);
    } else {
      WriteRstFlow(m, ok);
    }
  }

  lemma EofSteady(m: Machine)
    requires FlowBounded(m.t) && (m.t.state.Established? || m.t.state.CloseWait?) && m.t.forward == []
    ensures Steady(m, TakeEof(m, true))
  {
    hide Span, Outstanding, Limit, Wrap;
    ScaledWindow(0, m.t.sendScale);
    var r := TakeEof(m, true);
    Append(m.log.out, Outgoing(m.t, [], false, true, true, false), 0);
    AdvanceOutstanding(m.t, r.t, 1);
  }

  /** A data write leaves at most the client's window unacknowledged. */
  lemma TakeBytesSteady(m: Machine, b: Payload, shown: Payload, ok: bool)
    requires FlowBounded(m.t) && (m.t.state.Established? || m.t.state.CloseWait?)
    requires 0 < |b| <= SendWindow(m.t) && |shown| == |b|
    ensures Steady(m, TakeBytes(m, b, shown, ok))
    ensures ok ==> Outstanding(TakeBytes(m, b, shown, ok).t) <= m.t.sendWindow
  {
    hide Span, SendWindow, Outstanding, Limit;
    ScaledWindow(0, m.t.sendScale);
    Append(m.log.out, Outgoing(m.t, shown, false, true, false, false), 0);
    SendWindowLeavesRoom(m.t);
    AdvanceOutstanding(m.t, TakeBytes(m, b, shown, true).t, |b|);
    SameOutstanding(m.t, TakeBytes(m, b, shown, false).t);
  }

  lemma SameOutstanding(a: Tcp, b: Tcp)
    requires b.localSeq == a.localSeq && b.acked == a.acked
    ensures Outstanding(b) == Outstanding(a)
  {
  }

  lemma FetchSteady(m: Machine, recv: RecvResult, filter: Filter, now: int, ok: bool)
    requires FlowBounded(m.t) && MayFetch(m.t, true)
    ensures Steady(m, Fetch(m, recv, filter, now, ok))
    ensures PayloadOf(Fetch(m, recv, filter, now, ok).log.out) != PayloadOf(m.log.out) ==>
              Outstanding(Fetch(m, recv, filter, now, ok).t) <= Fetch(m, recv, filter, now, ok).t.sendWindow
  {
    hide Span, SendWindow, TakeBytes, TakeEof, WriteRst, FlowBounded, Shown;
    var m1 := m.(t := m.t.(time := now));
    BoundsOf(m.t, m1.t);
    SameSendWindow(m.t, m1.t);
    WriteRstFlow(m1, ok);
    SameFlowSteady(m1, WriteRst(m1, ok));
    TakeEofSteady(m1, ok);
    EmptyWrites(m1, ok);
    if recv.Bytes? {
      var size := if SendWindow(m.t) > m.t.mss then m.t.mss else SendWindow(m.t);
      var b := if |recv.data| <= size then recv.data else recv.data[..size];
      if b != [] {
        TakeBytesSteady(m1, b, Shown(b, filter), ok);
        LostBytes(m1, b, Shown(b, filter));
      }
    }
  }

  lemma BoundsOf(a: Tcp, b: Tcp)
    requires FlowBounded(a) && b == a.(time := b.time)
    ensures FlowBounded(b)
  {
  }

  lemma SameSendWindow(a: Tcp, b: Tcp)
    requires b == a.(time := b.time)
    ensures SendWindow(b) == SendWindow(a)
  {
  }

  lemma EmptyWrites(m: Machine, ok: bool)
    ensures PayloadOf(TakeEof(m, ok).log.out) == PayloadOf(m.log.out)
    ensures PayloadOf(WriteRst(m, ok).log.out) == PayloadOf(m.log.out)
  {
    var m1 := if m.t.state.Listen? then CountSyn(m) else m;
    Append(m.log.out, Outgoing(m.t, [], false, true, true, false), 0);
    Append(m.log.out, Outgoing(m1.t, [], false, m.t.state.Listen?, false, true), 0);
  }

  lemma LostBytes(m: Machine, b: Payload, shown: Payload)
    ensures TakeBytes(m, b, shown, false).log.out == m.log.out
    ensures TakeBytes(m, b, shown, true).t.sendWindow == m.t.sendWindow
  {
  }

  // ---- Steps ----

  /** Bounds are kept, and from ESTABLISHED on `acked` does not go back. */
  predicate FlowStep(a: Machine, b: Machine) {
    && FlowBounded(b.t) && b.t.sendScale == a.t.sendScale
    && (Live(a.t.state) && Live(b.t.state) ==> AckedUpto(a) <= AckedUpto(b))
  }

  lemma TakeAckFlow(m: Machine)
    requires FlowBounded(m.t)
    ensures FlowStep(m, TakeAck(m, m.t.localSeq))
  {
    hide Span;
    assert Outstanding(TakeAck(m, m.t.localSeq).t) == 0;
  }

  lemma TakeOtherAckFlow(m: Machine, ackno: u32, ok: bool)
    requires FlowBounded(m.t) && ackno != m.t.localSeq && !(Live(m.t.state) && HalfSpaceAck(m.t, ackno))
    ensures FlowStep(m, TakeOtherAck(m, ackno, ok))
  {
    hide Span, WriteRst, CompareU32, HalfSpaceAck;
    WriteRstFlow(m, ok);
    SameFlowSteady(m, WriteRst(m, ok));
    if Live(m.t.state) && TakenAsPrevious(m.t, ackno) {
      PreviousAckMovesForward(m.t, ackno);
    }
  }

  lemma TakeFlagsFlow(m: Machine, p: Packet, ok: bool)
    requires FlowBounded(m.t) && (Live(m.t.state) && !p.rst && p.ack ==> !HalfSpaceAck(m.t, p.ackno))
    ensures FlowStep(m, TakeFlags(m, p, ok))
  {
    hide Span, TakeFin, TakeAck, TakeOtherAck, HalfSpaceAck;
    TakeFinFlow(m, ok);
    SameFlowSteady(m, TakeFin(m, ok));
    TakeAckFlow(m);
    if !p.rst && p.ack && p.ackno != m.t.localSeq {
      TakeOtherAckFlow(m, p.ackno, ok);
    }
  }

  lemma RefreshFlow(m: Machine, p: Packet, now: int)
    requires FlowBounded(m.t)
    ensures FlowBounded(Refresh(m, p, now).t) && Refresh(m, p, now).t.sendScale == m.t.sendScale
    ensures AckedUpto(Refresh(m, p, now)) == AckedUpto(m)
  {
    ScaledWindow(p.window, m.t.sendScale);
  }

  lemma HandleTcpFlow(m: Machine, p: Packet, now: int, ok: bool)
    requires FlowBounded(m.t) && !TakesHalfSpaceAck(m.t, p)
    ensures FlowStep(m, HandleTcp(m, p, now, ok))
  {
    hide Span, TakeFlags, WriteRst, QueueTcp, Shl32, Wrap;
    RefreshFlow(m, p, now);
    var m1 := Refresh(m, p, now);
    WriteRstFlow(m, ok);
    SameFlowSteady(m, WriteRst(m, ok));
    WriteRstFlow(m1, ok);
    SameFlowSteady(m1, WriteRst(m1, ok));
    if !p.urg && !Closed(m.t.state) && (p.data != [] ==> m.t.open && !m.t.state.CloseWait?) {
      TakeFlagsFlow(Enqueue(m1, p), p, ok);
    }
  }

  /** Such an acknowledgement is taken, and moves `acked` back by 2^31 - 1. */
  lemma HalfSpaceAckGoesBack(m: Machine, p: Packet, now: int, ok: bool)
    requires TakesHalfSpaceAck(m.t, p)
    ensures var r := HandleTcp(m, p, now, ok);
            && r.t.acked == p.ackno && Live(r.t.state) && AckedUpto(r) == AckedUpto(m) - 0x7FFF_FFFF
  {
    hide Span, QueueTcp, Shl32, TakeFin, TakeAck, WriteRst;
    var m1 := Enqueue(Refresh(m, p, now), p);
    OtherAckGoesBack(m1, p.ackno, ok);
  }

  lemma OtherAckGoesBack(m: Machine, ackno: u32, ok: bool)
    requires HalfSpaceAck(m.t, ackno)
    ensures TakeOtherAck(m, ackno, ok) == m.(t := m.t.(acked := ackno))
  {
    hide WriteRst;
  }

  lemma SteadySteps(a: Machine, b: Machine, c: Machine)
    requires Steady(a, b) && Steady(b, c)
    ensures Steady(a, c)
  {
  }

  /** A data segment leaves this step only while the client's window covers all that is unacknowledged. */
  lemma CheckTcpSocketFlow(m: Machine, e: SocketEvent)
    requires FlowBounded(m.t)
    ensures FlowStep(m, CheckTcpSocket(m, e))
    ensures var r := CheckTcpSocket(m, e);
            PayloadOf(r.log.out) != PayloadOf(m.log.out) ==> Outstanding(r.t) <= r.t.sendWindow
  {
    hide Span, Forward, Acknowledge, Fetch, SendWindow, WriteRst, Connected;
    if e.err {
      var m1 := m.(t := m.t.(time := e.now));
      WriteRstFlow(m1, e.rstOk);
      SameFlowSteady(m1, WriteRst(m1, e.rstOk));
      EmptyWrites(m1, e.rstOk);
    } else if m.t.state.Listen? {
      ConnectedFlow(m, e.now, e.ackOk);
    } else {
      TransferFlow(m, e);
    }
  }

  lemma ConnectedFlow(m: Machine, now: int, ok: bool)
    requires FlowBounded(m.t) && m.t.state.Listen?
    ensures FlowStep(m, Connected(m, now, ok))
    ensures PayloadOf(Connected(m, now, ok).log.out) == PayloadOf(m.log.out)
  {
    Append(m.log.out, Outgoing(CountSyn(m).t, [], true, true, false, false), 0);
  }

  lemma TransferFlow(m: Machine, e: SocketEvent)
    requires FlowBounded(m.t)
    ensures Steady(m, Transfer(m, e))
    ensures var r := Transfer(m, e);
            PayloadOf(r.log.out) != PayloadOf(m.log.out) ==> Outstanding(r.t) <= r.t.sendWindow
  {
    hide Span, Forward, Acknowledge, Fetch, SendWindow, FlowBounded, PayloadOf, Outstanding;
    var (m1, fwd) := if e.writable then Forward(m, e.before, e.sends, e.rstOk) else (m, false);
    var m2 := Acknowledge(m1, fwd, e.after, e.now, e.ackOk);
    ForwardFlow(m, e.before, e.sends, e.rstOk);
    SameFlowSteady(m, m1);
    AcknowledgeFlow(m1, fwd, e.after, e.now, e.ackOk);
    SameFlowSteady(m1, m2);
    SteadySteps(m, m1, m2);
    ForwardPayload(m, e.before, e.sends, e.rstOk);
    AcknowledgePayload(m1, fwd, e.after, e.now, e.ackOk);
    if MayFetch(m2.t, e.readable) {
      FetchSteady(m2, e.recv, e.filter, e.now, e.dataOk);
      SteadySteps(m, m2, Transfer(m, e));
    }
  }

  lemma ForwardPayload(m: Machine, k: Kernel, sends: seq<SendResult>, ok: bool)
    ensures PayloadOf(Forward(m, k, sends, ok).0.log.out) == PayloadOf(m.log.out)
  {
    hide Drain, WriteRst;
    var d := Drain(m.t.forward, m.t.remoteSeq, ReceiveBuffer(m.t.open, k), sends);
    EmptyWrites(AfterDrain(m, d), ok);
  }

  lemma AcknowledgePayload(m: Machine, fwd: bool, k: Kernel, now: int, ok: bool)
    ensures PayloadOf(Acknowledge(m, fwd, k, now, ok).log.out) == PayloadOf(m.log.out)
  {
    hide ReceiveWindow;
    var m1 := ConfirmFin(m.(t := m.t.(recvWindow := ReceiveWindow(m.t, k))), fwd);
    Append(m.log.out, Outgoing(m1.t, [], false, true, false, false), 0);
  }

  lemma MonitorTcpFlow(m: Machine, ms: int, k: Kernel, ctlOk: bool, ok: bool)
    requires FlowBounded(m.t)
    ensures FlowStep(m, MonitorTcp(m, ms, k, ctlOk, ok).0)
  {
    hide Span, SendWindow, KeepAlive, CanForward;
    KeepAliveFlow(m, ms, ok);
    SameFlowSteady(m, KeepAlive(m, ms, ok));
  }

  lemma CheckTcpSessionFlow(m: Machine, now: int, timeout: int, ok: bool)
    requires FlowBounded(m.t)
    ensures FlowStep(m, CheckTcpSession(m, now, timeout, ok).0)
  {
    hide Span, WriteRst;
    WriteRstFlow(m, ok);
    var r := CheckTcpSession(m, now, timeout, ok).0;
    SameFlowSteady(m, r);
  }

  lemma OtherStepFlow(m: Machine, e: Event)
    requires FlowBounded(m.t) && !e.FromTun?
    ensures FlowStep(m, Step(m, e))
  {
    hide Span, HandleTcp, CheckTcpSocket, MonitorTcp, CheckTcpSession, WriteRst;
    match e
    case FromSocket(ev) => CheckTcpSocketFlow(m, ev);
    case Monitor(ms, k, ctlOk, ok) => MonitorTcpFlow(m, ms, k, ctlOk, ok);
    case Sweep(now, timeout, ok) => CheckTcpSessionFlow(m, now, timeout, ok);
    case Disallow(ok) =>
      WriteRstFlow(m, ok);
      SameFlowSteady(m, WriteRst(m, ok));
  }

  /** A step of a live session keeps the bounds and moves `acked` forward, if at all, unless and only
      unless it takes a half-space acknowledgement. */
  lemma StepFlow(m: Machine, e: Event)
    requires FlowBounded(m.t)
    ensures FlowStep(m, Step(m, e)) <==> !(e.FromTun? && TakesHalfSpaceAck(m.t, e.p))
  {
    hide Span, HandleTcp, Step, TakesHalfSpaceAck, FlowBounded, Outstanding;
    if !e.FromTun? {
      OtherStepFlow(m, e);
    } else {
      assert Step(m, e) == HandleTcp(m, e.p, e.now, e.ok) by {
        StepFromTun(m, e);
      }
      if TakesHalfSpaceAck(m.t, e.p) {
        HalfSpaceAckGoesBack(m, e.p, e.now, e.ok);
        IsLive(m.t, e.p);
      } else {
        HandleTcpFlow(m, e.p, e.now, e.ok);
      }
    }
  }

  lemma StepFromTun(m: Machine, e: Event)
    requires e.FromTun?
    ensures Step(m, e) == HandleTcp(m, e.p, e.now, e.ok)
  {
  }

  lemma IsLive(t: Tcp, p: Packet)
    requires TakesHalfSpaceAck(t, p)
    ensures Live(t.state)
  {
  }

  // ---- Runs ----

  predicate NoHalfSpaceAcks(m: Machine, es: seq<Event>)
    decreases |es|
  {
    es != [] ==>
      && !(es[0].FromTun? && TakesHalfSpaceAck(m.t, es[0].p))
      && NoHalfSpaceAcks(Step(m, es[0]), es[1..])
  }

  predicate FlowThroughout(m: Machine, es: seq<Event>)
    decreases |es|
  {
    es != [] ==> FlowStep(m, Step(m, es[0])) && FlowThroughout(Step(m, es[0]), es[1..])
  }

  /** Over a whole run the bounds are kept, and `acked` moves forward in every live step, if and only if
      no half-space acknowledgement is taken. */
  lemma {:induction false} FlowIffNoHalfSpaceAcks(m: Machine, es: seq<Event>)
    requires FlowBounded(m.t)
    ensures FlowThroughout(m, es) <==> NoHalfSpaceAcks(m, es)
    decreases |es|
  {
    hide Step, Outstanding, Span, TakesHalfSpaceAck;
    if es != [] {
      StepFlow(m, es[0]);
      if FlowStep(m, Step(m, es[0])) {
        FlowIffNoHalfSpaceAcks(Step(m, es[0]), es[1..]);
      }
    }
  }

  /** Over any run between two live states the acknowledged edge never moves back. */
  lemma {:induction false} RunFlow(m: Machine, es: seq<Event>)
    requires FlowBounded(m.t) && SocketMatchesState(m.t) && NoHalfSpaceAcks(m, es)
    ensures FlowBounded(Run(m, es).t) && Run(m, es).t.sendScale == m.t.sendScale
    ensures Live(m.t.state) && Live(Run(m, es).t.state) ==> AckedUpto(m) <= AckedUpto(Run(m, es))
    decreases |es|
  {
    hide Step, Outstanding, Span, FlowBounded, TakesHalfSpaceAck;
    if es != [] {
      var m1 := Step(m, es[0]);
      StepFlow(m, es[0]);
      StepOnward(m, es[0]);
      RunFlow(m1, es[1..]);
      RunClimbs(m1, es[1..]);
    }
  }

  lemma NewSessionFlow(p: Packet, mss: u16, ws: u8, isn: u32, now: int, k: Kernel)
    requires Moderate(ws)
    ensures var m := NewSession(p, mss, ws, isn, now, k);
            FlowBounded(m.t) && SocketMatchesState(m.t) && m.t.sendScale == ws
  {
    hide ReceiveWindow;
    ScaledWindow(p.window, ws);
  }

  lemma LiveBound(t: Tcp)
    requires FlowBounded(t) && Live(t.state)
    ensures Outstanding(t) <= Limit(t.sendScale) + 1 < 0x7FFF_FFFF
    ensures t.sendScale <= 14 ==> Outstanding(t) < 0x4000_0000
  {
    ScaledWindow(0, t.sendScale);
  }

  /** From the SYN on, with a moderate window scale, in every reachable state: while the session is live
      less than 2^31 sequence numbers are unacknowledged, and less than 2^30 for a scale of at most 14, so
      `acked` never passes `local_seq`; over any further run `acked` only moves forward; and a socket event
      that sends data leaves no more unacknowledged than the client's window. */
  lemma FlowControl(p: Packet, mss: u16, ws: u8, isn: u32, now: int, k: Kernel, es: seq<Event>,
                    further: seq<Event>, e: SocketEvent)
    requires Moderate(ws)
    requires NoHalfSpaceAcks(NewSession(p, mss, ws, isn, now, k), es)
    requires NoHalfSpaceAcks(Run(NewSession(p, mss, ws, isn, now, k), es), further)
    ensures var m := Run(NewSession(p, mss, ws, isn, now, k), es);
            var later, sent := Run(m, further), CheckTcpSocket(m, e);
            && (Live(m.t.state) ==> Outstanding(m.t) < 0x7FFF_FFFF)
            && (Live(m.t.state) && ws <= 14 ==> Outstanding(m.t) < 0x4000_0000)
            && (Live(m.t.state) && Live(later.t.state) ==> AckedUpto(m) <= AckedUpto(later))
            && (PayloadOf(sent.log.out) != PayloadOf(m.log.out) ==> Outstanding(sent.t) <= sent.t.sendWindow)
  {
    hide NewSession, Run, CheckTcpSocket, FlowBounded, Outstanding, Span, PayloadOf;
    var m0 := NewSession(p, mss, ws, isn, now, k);
    NewSessionFlow(p, mss, ws, isn, now, k);
    RunFlow(m0, es);
    RunClimbs(m0, es);
    var m := Run(m0, es);
    if Live(m.t.state) {
      LiveBound(m.t);
    }
    RunFlow(m, further);
    CheckTcpSocketFlow(m, e);
  }
}
