/** Socket to client: numbering of everything written to the tun device, over whole runs. */
module TcpDownstream {
  import opened Words
  import opened Reassembly
  import opened TcpModel
  import opened TcpReading

  /** How much sequence space a packet takes, section 3.4 of RFC 9293. */
  function SeqLen(p: Packet): nat {
    |p.data| + (if p.syn then 1 else 0) + (if p.fin then 1 else 0)
  }

  function Span(out: seq<Packet>): nat {
    if out == [] then 0 else Span(out[..|out| - 1]) + SeqLen(out[|out| - 1])
  }

  /** The bytes the client gets. */
  function PayloadOf(out: seq<Packet>): seq<u8> {
    if out == [] then [] else PayloadOf(out[..|out| - 1]) + out[|out| - 1].data
  }

  function Syns(out: seq<Packet>): nat {
    if out == [] then 0 else Syns(out[..|out| - 1]) + (if out[|out| - 1].syn then 1 else 0)
  }

  function Fins(out: seq<Packet>): nat {
    if out == [] then 0 else Fins(out[..|out| - 1]) + (if out[|out| - 1].fin then 1 else 0)
  }

  /** p may follow out: it is numbered by what precedes it; a SYN comes first, data only after the
      SYN, and nothing that takes sequence space comes after a FIN. */
  predicate Follows(out: seq<Packet>, p: Packet, start: u32) {
    && p.seqno == Wrap(start + Span(out))
    && (p.syn ==> Span(out) == 0)
    && (p.data != [] || p.fin ==> Syns(out) == 1)
    && (p.fin ==> p.data == [])
    && (Fins(out) > 0 ==> SeqLen(p) == 0)
  }

  predicate WellFormed(out: seq<Packet>, start: u32) {
    out != [] ==> WellFormed(out[..|out| - 1], start) && Follows(out[..|out| - 1], out[|out| - 1], start)
  }

  predicate EmittedByState(s: State, syns: nat, fins: nat) {
    match s
    case Listen => syns == 0 && fins == 0
    case SynRecv => syns == 1 && fins == 0
    case Established => syns == 1 && fins == 0
    case CloseWait => syns == 1 && fins == 0
    case FinWait1 => syns == 1 && fins == 1
    case LastAck => syns == 1 && fins == 1
    case _ => syns <= 1 && fins <= 1
  }

  /** With `clean`, no data packet was lost on the way to the tun device. */
  predicate Downstream(m: Machine, clean: bool) {
    && WellFormed(m.log.out, m.t.localStart)
    && m.t.localSeq == Wrap(m.t.localStart + Span(m.log.out))
    && EmittedByState(m.t.state, Syns(m.log.out), Fins(m.log.out))
    && Span(m.log.out) == Syns(m.log.out) + |PayloadOf(m.log.out)| + Fins(m.log.out)
    && (m.t.state.Listen? ==> m.log.shown == [])
    && PayloadOf(m.log.out) <= m.log.shown
    && (clean || !Closed(m.t.state) ==> PayloadOf(m.log.out) == m.log.shown)
  }

  lemma Append(out: seq<Packet>, p: Packet, start: u32)
    ensures Span(out + [p]) == Span(out) + SeqLen(p)
    ensures PayloadOf(out + [p]) == PayloadOf(out) + p.data
    ensures Syns(out + [p]) == Syns(out) + (if p.syn then 1 else 0)
    ensures Fins(out + [p]) == Fins(out) + (if p.fin then 1 else 0)
    ensures WellFormed(out + [p], start) <==> WellFormed(out, start) && Follows(out, p, start)
  {
    assert (out + [p])[..|out|] == out;
  }

  /** b emitted nothing and kept the local side. */
  predicate SameOut(a: Machine, b: Machine) {
    && b.log.out == a.log.out && b.log.shown == a.log.shown
    && b.t.localSeq == a.t.localSeq && b.t.localStart == a.t.localStart
  }

  lemma Silent(a: Machine, b: Machine, clean: bool)
    requires Downstream(a, clean) && SameOut(a, b)
    requires b.t.state == a.t.state || Closed(b.t.state)
             || (&& !Closed(a.t.state) && !b.t.state.Listen?
               && EmittedByState(b.t.state, Syns(a.log.out), Fins(a.log.out)))
    ensures Downstream(b, clean)
  {
    hide WellFormed, Span, Syns, Fins, PayloadOf;
  }

  /** Packets without payload, SYN and FIN fit in anywhere. */
  lemma WriteEmpty(m: Machine, p: Packet, ok: bool, clean: bool)
    requires Downstream(m, clean) && p.seqno == m.t.localSeq && SeqLen(p) == 0
    ensures Downstream(WriteTcp(m, p, ok), clean)
  {
    hide WellFormed, Span, Syns, Fins, PayloadOf;
    Append(m.log.out, p, m.t.localStart);
    assert PayloadOf(m.log.out) + [] == PayloadOf(m.log.out);
  }

  lemma WriteAckDownstream(m: Machine, ok: bool, clean: bool)
    requires Downstream(m, clean)
    ensures Downstream(WriteAck(m, ok), clean)
  {
    hide Downstream;
    var p := Outgoing(m.t, [], false, true, false, false);
    WriteEmpty(m, p, ok, clean);
    Silent(WriteTcp(m, p, ok), WriteAck(m, ok), clean);
  }

  lemma WriteRstDownstream(m: Machine, ok: bool, clean: bool)
    requires Downstream(m, clean)
    ensures Downstream(WriteRst(m, ok), clean)
  {
    hide Downstream;
    var listening := m.t.state.Listen?;
    var m1 := if listening then CountSyn(m) else m;
    var p := Outgoing(m1.t, [], false, listening, false, true);
    Silent(m, m1, clean);
    WriteEmpty(m1, p, ok, clean);
    Silent(WriteTcp(m1, p, ok), WriteRst(m, ok), clean);
  }

  lemma TakeFinDownstream(m: Machine, ok: bool, clean: bool)
    requires Downstream(m, clean)
    ensures Downstream(TakeFin(m, ok), clean)
  {
    hide Downstream, WriteOrClose;
    EmittedOf(m, clean);
    match m.t.state
    case Established =>
      if m.t.forward == [] {
        Silent(m, CountFin(m), clean);
        WriteAckDownstream(CountFin(m), ok, clean);
        AckKeepsOut(CountFin(m), ok);
        Silent(WriteAck(CountFin(m), ok), TakeFin(m, ok), clean);
      } else {
        Silent(m, TakeFin(m, ok), clean);
      }
    case FinWait1 =>
      Silent(m, CountFin(m), clean);
      WriteAckDownstream(CountFin(m), ok, clean);
      Silent(WriteAck(CountFin(m), ok), TakeFin(m, ok), clean);
    case _ =>
  }

  lemma EmittedOf(m: Machine, clean: bool)
    requires Downstream(m, clean)
    ensures EmittedByState(m.t.state, Syns(m.log.out), Fins(m.log.out))
  {
  }

  lemma AckKeepsOut(m: Machine, ok: bool)
    ensures Syns(WriteAck(m, ok).log.out) == Syns(m.log.out)
    ensures Fins(WriteAck(m, ok).log.out) == Fins(m.log.out)
    ensures ok ==> WriteAck(m, ok).t.state == m.t.state
  {
    Append(m.log.out, Outgoing(m.t, [], false, true, false, false), m.t.localStart);
  }

  lemma TakeFlagsDownstream(m: Machine, p: Packet, ok: bool, clean: bool)
    requires Downstream(m, clean)
    ensures Downstream(TakeFlags(m, p, ok), clean)
  {
    hide Downstream, TakeFin, WriteRst;
    EmittedOf(m, clean);
    TakeFinDownstream(m, ok, clean);
    WriteRstDownstream(m, ok, clean);
    Silent(m, m.(t := m.t.(state := Closing)), clean);
    Silent(m, TakeAck(m, p.ackno), clean);
    Silent(m, m.(t := m.t.(acked := p.ackno)), clean);
  }

  lemma HandleTcpDownstream(m: Machine, p: Packet, now: int, ok: bool, clean: bool)
    requires Downstream(m, clean)
    ensures Downstream(HandleTcp(m, p, now, ok), clean)
  {
    hide Downstream, TakeFlags, WriteRst, QueueTcp;
    var m1 := Refresh(m, p, now);
    WriteRstDownstream(m, ok, clean);
    Silent(m, m1, clean);
    WriteRstDownstream(m1, ok, clean);
    Silent(m1, Enqueue(m1, p), clean);
    TakeFlagsDownstream(Enqueue(m1, p), p, ok, clean);
  }

  lemma ConnectedDownstream(m: Machine, now: int, ok: bool, clean: bool)
    requires Downstream(m, clean) && m.t.state.Listen?
    ensures Downstream(Connected(m, now, ok), clean)
  {
    var m1 := CountSyn(m);
    var p := Outgoing(m1.t, [], true, true, false, false);
    hide WellFormed, Span, Syns, Fins, PayloadOf;
    Append(m.log.out, p, m.t.localStart);
    assert PayloadOf(m.log.out) + [] == PayloadOf(m.log.out);
    WrapAdd(m.t.localStart + Span(m.log.out), 1);
  }

  lemma ForwardDownstream(m: Machine, k: Kernel, sends: seq<SendResult>, ok: bool, clean: bool)
    requires Downstream(m, clean)
    ensures Downstream(Forward(m, k, sends, ok).0, clean)
  {
    hide Downstream, Drain, WriteRst;
    var d := Drain(m.t.forward, m.t.remoteSeq, ReceiveBuffer(m.t.open, k), sends);
    var m1 := AfterDrain(m, d);
    Silent(m, m1, clean);
    WriteRstDownstream(m1, ok, clean);
  }

  lemma AcknowledgeDownstream(m: Machine, fwd: bool, k: Kernel, now: int, ok: bool, clean: bool)
    requires Downstream(m, clean)
    ensures Downstream(Acknowledge(m, fwd, k, now, ok), clean)
  {
    hide Downstream, WriteAck, ReceiveWindow;
    var m1 := m.(t := m.t.(recvWindow := ReceiveWindow(m.t, k)));
    Silent(m, m1, clean);
    Silent(m1, ConfirmFin(m1, fwd), clean);
    WriteAckDownstream(ConfirmFin(m1, fwd), ok, clean);
    var m2 := WriteAck(ConfirmFin(m1, fwd), ok);
    Silent(m2, m2.(t := m2.t.(time := now)), clean);
  }

  lemma EofWritten(m: Machine, clean: bool)
    requires Downstream(m, clean) && (m.t.state.Established? || m.t.state.CloseWait?) && m.t.forward == []
    ensures Downstream(TakeEof(m, true), clean)
  {
    hide WellFormed, Span, Syns, Fins, PayloadOf;
    Append(m.log.out, Outgoing(m.t, [], false, true, true, false), m.t.localStart);
    assert PayloadOf(m.log.out) + [] == PayloadOf(m.log.out);
    WrapAdd(m.t.localStart + Span(m.log.out), 1);
  }

  lemma TakeEofDownstream(m: Machine, ok: bool, clean: bool)
    requires Downstream(m, clean) && (m.t.state.Established? || m.t.state.CloseWait?)
    ensures Downstream(TakeEof(m, ok), clean)
  {
    hide Downstream, WriteRst;
    if m.t.forward == [] {
      if ok {
        EofWritten(m, clean);
      } else {
        Silent(m, TakeEof(m, ok), clean);
      }
    } else {
      WriteRstDownstream(m, ok, clean);
      Silent(WriteRst(m, ok), TakeEof(m, ok), clean);
    }
  }

  lemma TakeBytesDownstream(m: Machine, b: Payload, shown: Payload, ok: bool, clean: bool)
    requires Downstream(m, clean) && (m.t.state.Established? || m.t.state.CloseWait?) && b != []
    requires |shown| == |b| && (clean ==> ok)
    ensures Downstream(TakeBytes(m, b, shown, ok), clean)
  {
    hide WellFormed, Span, Syns, Fins, PayloadOf;
    Append(m.log.out, Outgoing(m.t, shown, false, true, false, false), m.t.localStart);
    WrapAdd(m.t.localStart + Span(m.log.out), |b|);
  }

  lemma FetchDownstream(m: Machine, recv: RecvResult, filter: Filter, now: int, ok: bool, clean: bool)
    requires Downstream(m, clean) && (m.t.state.Established? || m.t.state.CloseWait?)
    requires clean ==> ok
    ensures Downstream(Fetch(m, recv, filter, now, ok), clean)
  {
    hide Downstream, TakeBytes, TakeEof, WriteRst, SendWindow, Shown;
    var m1 := m.(t := m.t.(time := now));
    Silent(m, m1, clean);
    WriteRstDownstream(m1, ok, clean);
    TakeEofDownstream(m1, ok, clean);
    if recv.Bytes? {
      var size := if SendWindow(m.t) > m.t.mss then m.t.mss else SendWindow(m.t);
      var b := if |recv.data| <= size then recv.data else recv.data[..size];
      if b != [] {
        TakeBytesDownstream(m1, b, Shown(b, filter), ok, clean);
      }
    }
  }

  lemma CheckTcpSocketDownstream(m: Machine, e: SocketEvent, clean: bool)
    requires Downstream(m, clean)
    requires clean ==> e.dataOk
    ensures Downstream(CheckTcpSocket(m, e), clean)
  {
    hide Downstream, Forward, Acknowledge, Fetch, SendWindow, WriteRst, Connected;
    if e.err {
      Silent(m, m.(t := m.t.(time := e.now)), clean);
      WriteRstDownstream(m.(t := m.t.(time := e.now)), e.rstOk, clean);
    } else if m.t.state.Listen? {
      ConnectedDownstream(m, e.now, e.ackOk, clean);
    } else {
      ForwardDownstream(m, e.before, e.sends, e.rstOk, clean);
      var (m1, fwd) := if e.writable then Forward(m, e.before, e.sends, e.rstOk) else (m, false);
      AcknowledgeDownstream(m1, fwd, e.after, e.now, e.ackOk, clean);
      var m2 := Acknowledge(m1, fwd, e.after, e.now, e.ackOk);
      if MayFetch(m2.t, e.readable) {
        FetchDownstream(m2, e.recv, e.filter, e.now, e.dataOk, clean);
      }
    }
  }

  lemma KeepAliveDownstream(m: Machine, ms: int, ok: bool, clean: bool)
    requires Downstream(m, clean)
    ensures Downstream(KeepAlive(m, ms, ok), clean)
  {
    hide Downstream, WriteAck;
    var m1 := m.(t := m.t.(lastKeepAlive := ms, remoteSeq := Wrap(m.t.remoteSeq - 1)));
    Silent(m, m1, clean);
    WriteAckDownstream(m1, ok, clean);
    var m2 := WriteAck(m1, ok);
    Silent(m2, m2.(t := m2.t.(remoteSeq := Wrap(m2.t.remoteSeq + 1))), clean);
  }

  lemma MonitorTcpDownstream(m: Machine, ms: int, k: Kernel, ctlOk: bool, ok: bool, clean: bool)
    requires Downstream(m, clean)
    ensures Downstream(MonitorTcp(m, ms, k, ctlOk, ok).0, clean)
  {
    hide Downstream, KeepAlive, SendWindow, CanForward;
    KeepAliveDownstream(m, ms, ok, clean);
    var r := MonitorTcp(m, ms, k, ctlOk, ok).0;
    if (m.t.state.Established? || m.t.state.CloseWait?) && SendWindow(m.t) == 0 {
      Silent(KeepAlive(m, ms, ok), r, clean);
    } else {
      Silent(m, r, clean);
    }
  }

  lemma CheckTcpSessionDownstream(m: Machine, now: int, timeout: int, ok: bool, clean: bool)
    requires Downstream(m, clean)
    ensures Downstream(CheckTcpSession(m, now, timeout, ok).0, clean)
  {
    hide Downstream, WriteRst;
    WriteRstDownstream(m, ok, clean);
    Silent(m, m.(t := m.t.(state := Closing)), clean);
    var m1 := Expire(m, now, timeout, ok);
    Silent(m1, CheckTcpSession(m, now, timeout, ok).0, clean);
  }

  /** Writing data read in this step to the tun device succeeds. */
  predicate DataWritten(e: Event) {
    e.FromSocket? ==> e.e.dataOk
  }

  lemma StepDownstream(m: Machine, e: Event, clean: bool)
    requires Downstream(m, clean)
    requires clean ==> DataWritten(e)
    ensures Downstream(Step(m, e), clean)
  {
    hide Downstream, HandleTcp, CheckTcpSocket, MonitorTcp, CheckTcpSession, WriteRst;
    match e
    case FromTun(p, now, ok) => HandleTcpDownstream(m, p, now, ok, clean);
    case FromSocket(ev) => CheckTcpSocketDownstream(m, ev, clean);
    case Monitor(ms, k, ctlOk, ok) => MonitorTcpDownstream(m, ms, k, ctlOk, ok, clean);
    case Sweep(now, timeout, ok) => CheckTcpSessionDownstream(m, now, timeout, ok, clean);
    case Disallow(ok) => WriteRstDownstream(m, ok, clean);
  }

  lemma {:induction false} RunDownstream(m: Machine, es: seq<Event>, clean: bool)
    requires Downstream(m, clean)
    requires clean ==> forall e <- es :: DataWritten(e)
    ensures Downstream(Run(m, es), clean)
    decreases |es|
  {
    hide Downstream, Step;
    if es != [] {
      assert es[0] in es;
      StepDownstream(m, es[0], clean);
      RunDownstream(Step(m, es[0]), es[1..], clean);
    }
  }

  /** Packet k, if it carries data, is numbered by the payload before it. */
  predicate DataInPlace(out: seq<Packet>, start: u32, k: nat)
    requires k < |out|
  {
    && PayloadOf(out[..k]) + out[k].data <= PayloadOf(out)
    && (out[k].data != [] ==> out[k].seqno == Wrap(start + 1 + |PayloadOf(out[..k])|))
  }

  /** Packet k, if it is a FIN, is numbered by the whole payload and nothing that counts follows. */
  predicate FinInPlace(out: seq<Packet>, start: u32, k: nat)
    requires k < |out|
  {
    out[k].fin ==>
      && out[k].seqno == Wrap(start + 1 + |PayloadOf(out)|)
      && forall j :: k < j < |out| ==> SeqLen(out[j]) == 0
  }

  predicate InPlace(out: seq<Packet>, start: u32, k: nat)
    requires k < |out|
  {
    DataInPlace(out, start, k) && FinInPlace(out, start, k)
  }

  lemma {:induction false} WellFormedInPlace(out: seq<Packet>, start: u32, k: nat)
    requires WellFormed(out, start) && k < |out|
    requires Syns(out) <= 1 && Fins(out) <= 1
    ensures InPlace(out, start, k)
    ensures out[k].fin ==> Fins(out) == 1 && Fins(out[..k]) == 0
    decreases |out|
  {
    var n := |out| - 1;
    var init, last := out[..n], out[n];
    SpanSplits(init, start);
    assert init[..k] == out[..k];
    if k < n {
      WellFormedInPlace(init, start, k);
      EarlierDataInPlace(init, last, start, k);
      EarlierFinInPlace(init, last, start, k);
      assert init + [last] == out;
    }
  }

  lemma EarlierDataInPlace(init: seq<Packet>, last: Packet, start: u32, k: nat)
    requires k < |init| && DataInPlace(init, start, k)
    ensures DataInPlace(init + [last], start, k)
  {
    hide Span, Syns, Fins, PayloadOf, Wrap, WellFormed;
    var out := init + [last];
    Append(init, last, start);
    assert out[..k] == init[..k] && out[k] == init[k];
    assert PayloadOf(init) <= PayloadOf(out);
  }

  lemma EarlierFinInPlace(init: seq<Packet>, last: Packet, start: u32, k: nat)
    requires k < |init| && FinInPlace(init, start, k) && Follows(init, last, start)
    requires init[k].fin ==> Fins(init) == 1
    ensures FinInPlace(init + [last], start, k)
  {
    hide Span, Syns, Fins, PayloadOf, Wrap, WellFormed;
    var out := init + [last];
    Append(init, last, start);
    assert out[k] == init[k];
    if init[k].fin {
      assert SeqLen(last) == 0;
      assert PayloadOf(out) == PayloadOf(init);
    }
  }

  lemma {:induction false} SpanSplits(out: seq<Packet>, start: u32)
    requires WellFormed(out, start)
    ensures Span(out) == Syns(out) + |PayloadOf(out)| + Fins(out)
  {
    if out != [] {
      SpanSplits(out[..|out| - 1], start);
    }
  }

  /** For every run: data packets carry consecutive ranges from `local_start` + 1 on, a FIN is
      numbered just after the last byte and nothing but bare packets follows it, there is at most
      one FIN, and the client gets exactly the bytes shown of what was read from the socket as long as
      the session is live or no data packet was lost, and a prefix of them otherwise. The shown bytes
      are those of the chunks read, one by one; on a connection that is not looked at they are the same. */
  lemma DownstreamSafety(p: Packet, mss: u16, ws: u8, isn: u32, now: int, k: Kernel, es: seq<Event>)
    returns (chunks: seq<Chunk>)
    ensures var m := Run(NewSession(p, mss, ws, isn, now, k), es);
            && Fins(m.log.out) <= 1
            && (forall i :: 0 <= i < |m.log.out| ==> InPlace(m.log.out, isn, i))
            && PayloadOf(m.log.out) <= m.log.shown
            && (!Closed(m.t.state) || (forall e <- es :: DataWritten(e)) ==> PayloadOf(m.log.out) == m.log.shown)
            && m.log.fetched == AllRead(chunks) && m.log.shown == AllShown(chunks)
            && (forall c <- chunks :: ReadIn(c, es))
            && ((forall e <- es :: e.FromSocket? ==> e.e.filter.Unfiltered?) ==> m.log.shown == m.log.fetched)
  {
    var m0 := NewSession(p, mss, ws, isn, now, k);
    chunks := RunReads(m0, es);
    OnlyReads(m0, Run(m0, es), chunks);
    if forall e <- es :: e.FromSocket? ==> e.e.filter.Unfiltered? {
      UnfilteredIsShown(chunks);
    }
    NumberedSafely(p, mss, ws, isn, now, k, es);
  }

  lemma OnlyReads(a: Machine, b: Machine, chunks: seq<Chunk>)
    requires a.log.fetched == a.log.shown == [] && ReadsAfter(a, b, chunks)
    ensures b.log.fetched == AllRead(chunks) && b.log.shown == AllShown(chunks)
  {
  }

  lemma NumberedSafely(p: Packet, mss: u16, ws: u8, isn: u32, now: int, k: Kernel, es: seq<Event>)
    ensures var m := Run(NewSession(p, mss, ws, isn, now, k), es);
            && Fins(m.log.out) <= 1
            && (forall i :: 0 <= i < |m.log.out| ==> InPlace(m.log.out, isn, i))
            && PayloadOf(m.log.out) <= m.log.shown
            && (!Closed(m.t.state) || (forall e <- es :: DataWritten(e)) ==> PayloadOf(m.log.out) == m.log.shown)
  {
    hide InPlace, Run;
    var m0 := NewSession(p, mss, ws, isn, now, k);
    var clean := forall e <- es :: DataWritten(e);
    RunDownstream(m0, es, clean);
    var m := Run(m0, es);
    forall i | 0 <= i < |m.log.out| ensures InPlace(m.log.out, isn, i) {
      WellFormedInPlace(m.log.out, isn, i);
    }
  }
}
