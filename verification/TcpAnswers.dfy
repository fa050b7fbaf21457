/** That what the session takes from the client is acknowledged: at once, and in every reachable state. */
module TcpAnswers {
  import opened Words
  import opened Serial
  import opened Reassembly
  import opened TcpModel
  import opened TcpLifecycle
  import opened TcpReceive
  import opened TcpUpstream
  import A = TcpAcks

  /** p acknowledges all that t has taken from the client, with the window in force, and says nothing else. */
  predicate BareAck(p: Packet, t: Tcp) {
    && p.ack && p.ackno == t.remoteSeq && p.data == [] && !p.urg && !p.rst && !p.syn && !p.fin
    && p.window * Pow2(t.recvScale) <= t.recvWindow < (p.window + 1) * Pow2(t.recvScale)
  }

  /** The socket takes something of the first segment, or at least does not refuse it. */
  predicate SocketTakes(t: Tcp, e: SocketEvent) {
    e.writable && CanForward(t, e.before) && e.sends != [] && e.sends[0].Sent?
  }

  lemma ForwardsIff(m: Machine, e: SocketEvent)
    requires e.writable
    ensures Forward(m, e.before, e.sends, e.rstOk).1 <==> SocketTakes(m.t, e)
    ensures m.log.accepted != Forward(m, e.before, e.sends, e.rstOk).0.log.accepted ==> SocketTakes(m.t, e)
  {
    hide Outgoing, ReceiveBuffer, Fits;
  }

  /** The forwarding loop writes at most a reset. */
  lemma ForwardSays(m: Machine, k: Kernel, sends: seq<SendResult>, ok: bool)
    requires !m.t.state.Listen?
    ensures var r := Forward(m, k, sends, ok).0;
            && m.log.out <= r.log.out && r.t.recvWindow == m.t.recvWindow && r.t.recvScale == m.t.recvScale
            && r.t.localSeq == m.t.localSeq && !r.t.state.Listen?
            && forall i :: |m.log.out| <= i < |r.log.out| ==> r.log.out[i].rst
  {
    hide Drain;
  }

  /** What is read is written as data, or as a FIN, or ends in a reset. */
  lemma FetchSays(m: Machine, recv: RecvResult, filter: Filter, now: int, ok: bool)
    requires !m.t.state.Listen?
    ensures var r := Fetch(m, recv, filter, now, ok);
            && m.log.out <= r.log.out && SameWindow(m.t, r.t) && r.t.remoteSeq == m.t.remoteSeq
            && r.log.accepted == m.log.accepted
            && forall i :: |m.log.out| <= i < |r.log.out| ==>
                 r.log.out[i].rst || r.log.out[i].fin || r.log.out[i].data != []
  {
    hide SendWindow, TakeEof, TakeBytes, Shown, WriteRst, Pow2;
    var m1 := m.(t := m.t.(time := now));
    EndSays(m1, ok);
    if recv.Bytes? {
      var size := if SendWindow(m.t) > m.t.mss then m.t.mss else SendWindow(m.t);
      var b := if |recv.data| <= size then recv.data else recv.data[..size];
      if b != [] {
        BytesSay(m1, b, Shown(b, filter), ok);
      }
    }
  }

  lemma EndSays(m: Machine, ok: bool)
    requires !m.t.state.Listen?
    ensures forall r <- [WriteRst(m, ok), TakeEof(m, ok)] ::
              && m.log.out <= r.log.out && SameWindow(m.t, r.t) && r.t.remoteSeq == m.t.remoteSeq
              && r.log.accepted == m.log.accepted
              && forall i :: |m.log.out| <= i < |r.log.out| ==> r.log.out[i].rst || r.log.out[i].fin
  {
    hide Pow2;
  }

  lemma BytesSay(m: Machine, b: Payload, shown: Payload, ok: bool)
    requires shown != []
    ensures var r := TakeBytes(m, b, shown, ok);
            && m.log.out <= r.log.out && SameWindow(m.t, r.t) && r.t.remoteSeq == m.t.remoteSeq
            && r.log.accepted == m.log.accepted
            && forall i :: |m.log.out| <= i < |r.log.out| ==> r.log.out[i].data != []
  {
    hide Pow2;
  }

  /** Whether the window of t opens at k. */
  predicate Reopens(t: Tcp, k: Kernel) {
    t.recvWindow == 0 && ReceiveWindow(t, k) > 0
  }

  lemma AcknowledgeSays(m: Machine, fwd: bool, k: Kernel, now: int)
    ensures var r := Acknowledge(m, fwd, k, now, true);
            && m.log.out <= r.log.out && r.log.accepted == m.log.accepted && r.t.state == m.t.state
            && r.t.recvWindow == ReceiveWindow(m.t, k)
            && (if fwd || Reopens(m.t, k) then
                  |r.log.out| == |m.log.out| + 1 && BareAck(r.log.out[|m.log.out|], r.t)
                  && r.log.out[|m.log.out|].seqno == m.t.localSeq
                else r.log.out == m.log.out)
  {
    hide ReceiveWindow, Pow2;
    var m1 := m.(t := m.t.(recvWindow := ReceiveWindow(m.t, k)));
    var m2 := ConfirmFin(m1, fwd);
    WindowComputed(m.t, k);
    HeaderWindowExact(m2.t, [], false, true, false, false);
  }

  /** A bare acknowledgement is among the packets of b from the first that is not one of a's. */
  ghost predicate Acknowledges(a: Machine, b: Machine) {
    exists i :: |a.log.out| <= i < |b.log.out| && BareAck(b.log.out[i], b.t) && b.log.out[i].seqno == a.t.localSeq
  }

  /** No packet from the first that is not one of a's is bare. */
  predicate NoBareAck(a: Machine, b: Machine) {
    forall i :: |a.log.out| <= i < |b.log.out| ==>
      var p := b.log.out[i]; p.rst || p.fin || p.data != []
  }

  /** An event at the socket of a connected session is answered with an acknowledgement exactly if the socket takes
      something or the receive window opens; so whenever the socket accepted a byte. */
  lemma TakenIsAcknowledged(m: Machine, e: SocketEvent)
    requires m.t.open && !m.t.state.Listen? && !e.err && e.ackOk
    ensures var r := Step(m, FromSocket(e));
            var opens := m.t.recvWindow == 0 && r.t.recvWindow > 0;
            && (SocketTakes(m.t, e) || opens ==> Acknowledges(m, r))
            && (!SocketTakes(m.t, e) && !opens ==> NoBareAck(m, r))
            && (r.log.accepted != m.log.accepted ==> SocketTakes(m.t, e))
  {
    hide Forward, Acknowledge, Fetch, SendWindow, ReceiveWindow, BareAck, CanForward, Step;
    SocketStep(m, e);
    var (m1, fwd) := if e.writable then Forward(m, e.before, e.sends, e.rstOk) else (m, false);
    ForwardSays(m, e.before, e.sends, e.rstOk);
    if e.writable {
      ForwardsIff(m, e);
    }
    AcknowledgeSays(m1, fwd, e.after, e.now);
    var m2 := Acknowledge(m1, fwd, e.after, e.now, e.ackOk);
    FetchSays(m2, e.recv, e.filter, e.now, e.dataOk);
    var r := Step(m, FromSocket(e));
    if fwd || Reopens(m1.t, e.after) {
      var i := |m1.log.out|;
      StillBare(r.log.out[i], m2.t, r.t);
    }
  }

  lemma SocketStep(m: Machine, e: SocketEvent)
    requires m.t.open && !m.t.state.Listen? && !e.err
    ensures var (m1, fwd) := if e.writable then Forward(m, e.before, e.sends, e.rstOk) else (m, false);
            var m2 := Acknowledge(m1, fwd, e.after, e.now, e.ackOk);
            Step(m, FromSocket(e)) ==
            if MayFetch(m2.t, e.readable) then Fetch(m2, e.recv, e.filter, e.now, e.dataOk) else m2
  {
    hide Forward, Acknowledge, Fetch, SendWindow;
  }

  lemma StillBare(p: Packet, a: Tcp, b: Tcp)
    requires BareAck(p, a) && SameWindow(a, b) && b.remoteSeq == a.remoteSeq
    ensures BareAck(p, b)
  {
    hide Pow2;
  }

  // ---- Runs ----

  ghost predicate SomeAck(out: seq<Packet>, ackno: u32) {
    exists i :: 0 <= i < |out| && out[i].ack && out[i].ackno == ackno
  }

  /** Once the SYN is counted the client has been told all that was taken from it. */
  ghost predicate UpToDate(m: Machine) {
    m.log.synIn > 0 ==> SomeAck(m.log.out, m.t.remoteSeq)
  }

  /** Every write to the tun device that e may make succeeds. */
  predicate Written(e: Event) {
    match e
    case FromTun(_, _, ok) => ok
    case FromSocket(e) => e.rstOk && e.ackOk && e.dataOk
    case Monitor(_, _, _, ok) => ok
    case Sweep(_, _, ok) => ok
    case Disallow(ok) => ok
  }

  /** b is up to date, or a write failed and the session is over. */
  ghost predicate Told(b: Machine, written: bool) {
    UpToDate(b) || (!written && Closed(b.t.state))
  }

  lemma StillTold(a: Machine, b: Machine)
    requires UpToDate(a) && a.log.out <= b.log.out
    requires b.log.synIn > 0 ==> a.log.synIn > 0 && b.t.remoteSeq == a.t.remoteSeq
    ensures UpToDate(b)
  {
    if b.log.synIn > 0 {
      var i :| 0 <= i < |a.log.out| && a.log.out[i].ack && a.log.out[i].ackno == a.t.remoteSeq;
      assert b.log.out[i] == a.log.out[i];
    }
  }

  lemma AckTells(m: Machine, data: Payload, syn: bool, fin: bool, ok: bool)
    ensures Told(WriteOrClose(m, data, syn, fin, ok), ok)
    ensures ok ==> UpToDate(WriteOrClose(m, data, syn, fin, ok))
  {
    var r := WriteOrClose(m, data, syn, fin, ok);
    if ok {
      assert r.log.out[|m.log.out|].ack;
    }
  }

  lemma ResetTells(m: Machine, ok: bool)
    requires UpToDate(m)
    ensures Told(WriteRst(m, ok), ok)
  {
    var r := WriteRst(m, ok);
    if !m.t.state.Listen? {
      StillTold(m, r);
    } else if ok {
      assert r.log.out[|m.log.out|].ack;
    }
  }

  lemma TakeFinTells(m: Machine, ok: bool)
    requires UpToDate(m)
    ensures Told(TakeFin(m, ok), ok)
  {
    hide WriteOrClose, UpToDate;
    var m1 := CountFin(m);
    AckTells(m1, [], false, false, ok);
    AckState(m1, ok);
    var r := TakeFin(m, ok);
    if m.t.state.FinWait1? || (m.t.state.Established? && m.t.forward == []) {
      if ok {
        SameTold(WriteAck(m1, ok), r);
      }
    } else {
      SameTold(m, r);
    }
  }

  lemma SameTold(a: Machine, b: Machine)
    requires UpToDate(a) && b.log.out == a.log.out && b.log.synIn == a.log.synIn && b.t.remoteSeq == a.t.remoteSeq
    ensures UpToDate(b)
  {
  }

  lemma HandleTcpTells(m: Machine, p: Packet, now: int, ok: bool)
    requires UpToDate(m)
    ensures Told(HandleTcp(m, p, now, ok), ok)
  {
    hide UpToDate, WriteRst, TakeFlags, QueueTcp, Shl32;
    if !p.urg {
      ResetTells(m, ok);
      if !Closed(m.t.state) {
        var m1 := Refresh(m, p, now);
        SameTold(m, m1);
        ResetTells(m1, ok);
        var m2 := Enqueue(m1, p);
        SameTold(m1, m2);
        TakeFlagsTells(m2, p, ok);
      }
    }
  }

  lemma TakeFlagsTells(m: Machine, p: Packet, ok: bool)
    requires UpToDate(m)
    ensures Told(TakeFlags(m, p, ok), ok)
  {
    hide UpToDate, WriteRst, TakeFin, CompareU32;
    TakeFinTells(m, ok);
    ResetTells(m, ok);
    var r := TakeFlags(m, p, ok);
    if r != TakeFin(m, ok) && r != WriteRst(m, ok) {
      SameTold(m, r);
    }
  }

  lemma ForwardTells(m: Machine, k: Kernel, sends: seq<SendResult>, ok: bool)
    requires UpToDate(m) && !m.t.state.Listen?
    ensures var (r, fwd) := Forward(m, k, sends, ok); fwd || UpToDate(r)
  {
    hide UpToDate, Drain, WriteRst;
    var d := Drain(m.t.forward, m.t.remoteSeq, ReceiveBuffer(m.t.open, k), sends);
    var m1 := AfterDrain(m, d);
    if !d.fwd {
      DrainStays(m.t.forward, m.t.remoteSeq, ReceiveBuffer(m.t.open, k), sends);
      SameTold(m, m1);
      ResetKeeps(m1, ok);
      StillToldAs(m1, WriteRst(m1, ok));
    }
  }

  lemma StillToldAs(a: Machine, b: Machine)
    requires UpToDate(a) && a.log.out <= b.log.out && b.log.synIn == a.log.synIn && b.t.remoteSeq == a.t.remoteSeq
    ensures UpToDate(b)
  {
    StillTold(a, b);
  }

  lemma DrainStays(q: seq<Segment>, remote: u32, buffer: BufferSize, sends: seq<SendResult>)
    ensures var d := Drain(q, remote, buffer, sends); !d.fwd ==> d.remote == remote
  {
  }

  lemma ResetKeeps(m: Machine, ok: bool)
    requires !m.t.state.Listen?
    ensures var r := WriteRst(m, ok);
            m.log.out <= r.log.out && r.log.synIn == m.log.synIn && r.t.remoteSeq == m.t.remoteSeq
  {
  }

  lemma AcknowledgeTells(m: Machine, fwd: bool, k: Kernel, now: int, ok: bool)
    requires fwd || UpToDate(m)
    ensures Told(Acknowledge(m, fwd, k, now, ok), ok)
  {
    hide UpToDate, WriteOrClose, ReceiveWindow;
    var m1 := m.(t := m.t.(recvWindow := ReceiveWindow(m.t, k)));
    var m2 := ConfirmFin(m1, fwd);
    AckTells(m2, [], false, false, ok);
    AckState(m2, ok);
    var r := Acknowledge(m, fwd, k, now, ok);
    if fwd || Reopens(m.t, k) {
      if ok {
        SameTold(WriteAck(m2, ok), r);
      }
    } else {
      SameTold(m, r);
    }
  }

  lemma FetchTells(m: Machine, recv: RecvResult, filter: Filter, now: int, ok: bool)
    requires UpToDate(m) && !m.t.state.Listen?
    ensures UpToDate(Fetch(m, recv, filter, now, ok))
  {
    hide UpToDate, Fetch;
    FetchSays(m, recv, filter, now, ok);
    FetchCounts(m, recv, filter, now, ok);
    StillToldAs(m, Fetch(m, recv, filter, now, ok));
  }

  lemma FetchCounts(m: Machine, recv: RecvResult, filter: Filter, now: int, ok: bool)
    requires !m.t.state.Listen?
    ensures Fetch(m, recv, filter, now, ok).log.synIn == m.log.synIn
  {
    hide SendWindow, Outgoing, Shown;
  }

  lemma TransferTells(m: Machine, e: SocketEvent)
    requires UpToDate(m) && !m.t.state.Listen? && m.t.open && !e.err
    ensures Told(Step(m, FromSocket(e)), e.ackOk)
  {
    hide UpToDate, Forward, Acknowledge, Fetch, SendWindow, Step;
    SocketStep(m, e);
    var (m1, fwd) := if e.writable then Forward(m, e.before, e.sends, e.rstOk) else (m, false);
    ForwardTells(m, e.before, e.sends, e.rstOk);
    ForwardSays(m, e.before, e.sends, e.rstOk);
    AcknowledgeTells(m1, fwd, e.after, e.now, e.ackOk);
    var m2 := Acknowledge(m1, fwd, e.after, e.now, e.ackOk);
    if MayFetch(m2.t, e.readable) {
      FetchTells(m2, e.recv, e.filter, e.now, e.dataOk);
    }
  }

  lemma ConnectedTells(m: Machine, now: int, ok: bool)
    ensures Told(Connected(m, now, ok), ok)
  {
    hide UpToDate, WriteOrClose;
    var m1 := WriteOrClose(CountSyn(m), [], true, false, ok);
    AckTells(CountSyn(m), [], true, false, ok);
    if ok {
      SameTold(m1, Connected(m, now, ok));
    }
  }

  lemma SocketTells(m: Machine, e: SocketEvent)
    requires UpToDate(m)
    ensures Told(Step(m, FromSocket(e)), e.rstOk && e.ackOk && e.dataOk)
  {
    hide UpToDate, Transfer, Connected, WriteRst;
    if m.t.open {
      if e.err {
        var m1 := m.(t := m.t.(time := e.now));
        SameTold(m, m1);
        ResetTells(m1, e.rstOk);
      } else if m.t.state.Listen? {
        ConnectedTells(m, e.now, e.ackOk);
      } else {
        TransferTells(m, e);
      }
    }
  }

  lemma MonitorTells(m: Machine, ms: int, k: Kernel, ctlOk: bool, ok: bool)
    requires UpToDate(m)
    ensures UpToDate(MonitorTcp(m, ms, k, ctlOk, ok).0)
  {
    hide UpToDate, SendWindow, CanForward, KeepAlive;
    KeepAliveCounts(m, ms, ok);
    StillToldAs(m, MonitorTcp(m, ms, k, ctlOk, ok).0);
  }

  lemma KeepAliveCounts(m: Machine, ms: int, ok: bool)
    ensures var r := KeepAlive(m, ms, ok);
            m.log.out <= r.log.out && r.log.synIn == m.log.synIn && r.t.remoteSeq == m.t.remoteSeq
  {
    WrapAdd(m.t.remoteSeq - 1, 1);
  }

  lemma SweepTells(m: Machine, now: int, timeout: int, ok: bool)
    requires UpToDate(m)
    ensures Told(CheckTcpSession(m, now, timeout, ok).0, ok)
  {
    hide UpToDate, WriteRst;
    ResetTells(m, ok);
    var m1 := Expire(m, now, timeout, ok);
    var r := CheckTcpSession(m, now, timeout, ok).0;
    if UpToDate(m1) {
      SameTold(m1, r);
    } else {
      SameTold(m, m.(t := m.t.(state := Closing)));
    }
  }

  lemma StepTells(m: Machine, e: Event)
    requires UpToDate(m)
    ensures Told(Step(m, e), Written(e))
  {
    hide UpToDate, HandleTcp, CheckTcpSocket, MonitorTcp, CheckTcpSession, WriteRst;
    match e
    case FromTun(p, now, ok) => HandleTcpTells(m, p, now, ok);
    case FromSocket(ev) => SocketTells(m, ev);
    case Monitor(ms, k, ctlOk, ok) => if m.t.open { MonitorTells(m, ms, k, ctlOk, ok); }
    case Sweep(now, timeout, ok) => SweepTells(m, now, timeout, ok);
    case Disallow(ok) => ResetTells(m, ok);
  }

  lemma {:induction false} RunTells(m: Machine, es: seq<Event>)
    requires UpToDate(m) && SocketMatchesState(m.t)
    ensures Told(Run(m, es), forall e <- es :: Written(e))
    decreases |es|
  {
    hide Step, UpToDate, Written, SocketMatchesState;
    if es != [] {
      var m1 := Step(m, es[0]);
      StepTells(m, es[0]);
      StepOnward(m, es[0]);
      assert (forall e <- es :: Written(e)) ==> forall e <- es[1..] :: Written(e);
      assert (forall e <- es :: Written(e)) ==> Written(es[0]);
      if UpToDate(m1) {
        RunTells(m1, es[1..]);
      } else {
        ClosedForGood(m1, es[1..]);
      }
    }
  }

  lemma {:induction false} ClosedForGood(m: Machine, es: seq<Event>)
    requires SocketMatchesState(m.t) && Closed(m.t.state)
    ensures Closed(Run(m, es).t.state)
    decreases |es|
  {
    hide Step, SocketMatchesState;
    if es != [] {
      StepOnward(m, es[0]);
      ClosedForGood(Step(m, es[0]), es[1..]);
    }
  }

  /** In every run of a session whose SYN was counted, as long as the session lives or its writes succeed: some
      packet was written that acknowledges exactly the counted SYN, every byte of the client's stream that the
      socket has taken in whole segments, and the FIN if it was counted. */
  lemma ForwardedIsAcknowledged(p: Packet, mss: u16, ws: u8, isn: u32, now: int, k: Kernel, es: seq<Event>,
                                stream: seq<u8>)
    requires p.data == []
    requires RunFromClient(NewSession(p, mss, ws, isn, now, k), es, stream)
    ensures var m := Run(NewSession(p, mss, ws, isn, now, k), es);
            && m.log.accepted <= stream && 0 <= Forwarded(m) <= |m.log.accepted|
            && (m.t.forward == [] ==> Forwarded(m) == |m.log.accepted|)
            && (m.log.synIn > 0 && (!Closed(m.t.state) || forall e <- es :: Written(e)) ==>
                  SomeAck(m.log.out, Wrap(p.seqno + 1 + Forwarded(m) + m.log.finIn)))
  {
    hide Run, Upstream, SomeAck, Written, NewSession, Forwarded;
    var m0 := NewSession(p, mss, ws, isn, now, k);
    NewSessionUpstream(p, mss, ws, isn, now, k, stream);
    RunUpstream(m0, es, stream);
    var m := Run(m0, es);
    UpstreamMeans(m, stream);
    A.CoveredIsAccepted(m, stream);
    QueueIsPartial(m);
    StartsUpToDate(p, mss, ws, isn, now, k);
    RunTells(m0, es);
    assert m.log.synIn > 0 ==> p.seqno + m.log.synIn + Forwarded(m) + m.log.finIn
                               == p.seqno + 1 + Forwarded(m) + m.log.finIn;
  }

  lemma StartsUpToDate(p: Packet, mss: u16, ws: u8, isn: u32, now: int, k: Kernel)
    ensures var m := NewSession(p, mss, ws, isn, now, k);
            UpToDate(m) && SocketMatchesState(m.t) && m.t.remoteStart == p.seqno
  {
    hide Shl32, ReceiveWindow;
  }

  lemma QueueIsPartial(m: Machine)
    ensures m.t.forward == [] ==> Forwarded(m) == |m.log.accepted|
  {
  }
}
