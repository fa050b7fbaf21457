/** What a session is polled for, and what happens when the poll reports it. */
module TcpProgress {
  import opened Words
  import opened Reassembly
  import opened TcpModel
  import opened TcpReading
  import opened TcpExamples

  /** The forwarding loop gets something done, whatever a working `send` takes. */
  ghost predicate Forwards(t: Tcp, k: Kernel) {
    forall sends: seq<SendResult> :: sends != [] && sends[0].Sent? ==>
      Drain(t.forward, t.remoteSeq, ReceiveBuffer(t.open, k), sends).fwd
  }

  /** The forwarding loop does nothing, whatever `send` would do. */
  ghost predicate Idles(t: Tcp, k: Kernel) {
    forall sends: seq<SendResult> ::
      Drain(t.forward, t.remoteSeq, ReceiveBuffer(t.open, k), sends)
      == Drained(t.forward, t.remoteSeq, [], false, false)
  }

  lemma CanForwardForwards(t: Tcp, k: Kernel)
    ensures CanForward(t, k) ==> Forwards(t, k)
    ensures !CanForward(t, k) ==> Idles(t, k)
  {
    hide ReceiveBuffer;
  }

  lemma KeepAliveKeeps(m: Machine, ms: int, ok: bool)
    ensures var r := KeepAlive(m, ms, ok).t;
            && r.forward == m.t.forward && r.remoteSeq == m.t.remoteSeq && r.open == m.t.open
            && r.localSeq == m.t.localSeq && r.acked == m.t.acked && r.sendWindow == m.t.sendWindow
            && r.unconfirmed == m.t.unconfirmed && r.mss == m.t.mss
  {
    hide Outgoing;
    WrapAdd(m.t.remoteSeq - 1, 1);
  }

  /** An event that only says that the socket is readable, and on which the writes succeed. */
  predicate OnlyReadable(e: SocketEvent) {
    !e.err && e.readable && !e.writable && e.recv.Bytes? && e.recv.data != [] && e.ackOk
  }

  /** Whatever the socket delivers, some of it is read. */
  ghost predicate Reads(m: Machine) {
    forall e: SocketEvent :: OnlyReadable(e) ==> m.log.fetched < CheckTcpSocket(m, e).log.fetched
  }

  /** Whatever happens at the socket, nothing is read. */
  ghost predicate NeverReads(m: Machine) {
    forall e: SocketEvent :: CheckTcpSocket(m, e).log.fetched == m.log.fetched
  }

  lemma ForwardKeepsWindow(m: Machine, k: Kernel, sends: seq<SendResult>, ok: bool)
    ensures SendWindow(Forward(m, k, sends, ok).0.t) == SendWindow(m.t)
  {
    hide Drain, Outgoing, Wrap;
  }

  lemma AcknowledgeKeepsWindow(m: Machine, fwd: bool, k: Kernel, now: int, ok: bool)
    ensures var r := Acknowledge(m, fwd, k, now, ok);
            && SendWindow(r.t) == SendWindow(m.t) && r.t.mss == m.t.mss
            && (ok ==> r.t.state == m.t.state)
  {
    hide ReceiveWindow, Outgoing, Wrap;
  }

  lemma ClosedWindowReadsNothing(m: Machine, e: SocketEvent)
    requires SendWindow(m.t) == 0 && !m.t.state.Listen?
    ensures CheckTcpSocket(m, e).log.fetched == m.log.fetched
  {
    hide Forward, Acknowledge, SendWindow, WriteRst, Fetch;
    ClosingReadsNothing(m.(t := m.t.(time := e.now)), e.rstOk);
    ForwardReadsNothing(m, e.before, e.sends, e.rstOk);
    ForwardKeepsWindow(m, e.before, e.sends, e.rstOk);
    var (m1, fwd) := if e.writable then Forward(m, e.before, e.sends, e.rstOk) else (m, false);
    AcknowledgeReadsNothing(m1, fwd, e.after, e.now, e.ackOk);
    AcknowledgeKeepsWindow(m1, fwd, e.after, e.now, e.ackOk);
  }

  lemma OpenWindowReads(m: Machine, e: SocketEvent)
    requires m.t.state.Established? || m.t.state.CloseWait?
    requires SendWindow(m.t) > 0 && m.t.mss > 0 && OnlyReadable(e)
    ensures m.log.fetched < CheckTcpSocket(m, e).log.fetched
  {
    hide Acknowledge, SendWindow, TakeBytes, Shown;
    var m1 := Acknowledge(m, false, e.after, e.now, e.ackOk);
    AcknowledgeReadsNothing(m, false, e.after, e.now, e.ackOk);
    AcknowledgeKeepsWindow(m, false, e.after, e.now, e.ackOk);
    var size := if SendWindow(m1.t) > m1.t.mss then m1.t.mss else SendWindow(m1.t);
    var b := if |e.recv.data| <= size then e.recv.data else e.recv.data[..size];
    BytesAreRead(m1.(t := m1.t.(time := e.now)), b, Shown(b, e.filter), e.dataOk);
  }

  lemma BytesAreRead(m: Machine, b: Payload, shown: Payload, ok: bool)
    ensures TakeBytes(m, b, shown, ok).log.fetched == m.log.fetched + b
  {
    hide Outgoing;
  }

  lemma NoMssReadsNothing(m: Machine, e: SocketEvent)
    requires m.t.mss == 0 && !m.t.state.Listen?
    ensures CheckTcpSocket(m, e).log.fetched == m.log.fetched
  {
    hide Forward, Acknowledge, SendWindow, WriteRst, TakeEof;
    ClosingReadsNothing(m.(t := m.t.(time := e.now)), e.rstOk);
    ForwardReadsNothing(m, e.before, e.sends, e.rstOk);
    ForwardKeepsMss(m, e.before, e.sends, e.rstOk);
    var (m1, fwd) := if e.writable then Forward(m, e.before, e.sends, e.rstOk) else (m, false);
    AcknowledgeReadsNothing(m1, fwd, e.after, e.now, e.ackOk);
    AcknowledgeKeepsWindow(m1, fwd, e.after, e.now, e.ackOk);
    var m2 := Acknowledge(m1, fwd, e.after, e.now, e.ackOk);
    ClosingReadsNothing(m2.(t := m2.t.(time := e.now)), e.dataOk);
  }

  lemma ForwardKeepsMss(m: Machine, k: Kernel, sends: seq<SendResult>, ok: bool)
    ensures Forward(m, k, sends, ok).0.t.mss == m.t.mss
  {
    hide Drain, Outgoing;
  }

  /** Exactly when anything is read. */
  lemma ReadsIff(m: Machine)
    requires m.t.state.Established? || m.t.state.CloseWait?
    ensures Reads(m) <==> SendWindow(m.t) > 0 && m.t.mss > 0
    ensures NeverReads(m) <==> SendWindow(m.t) == 0 || m.t.mss == 0
  {
    hide CheckTcpSocket, SendWindow, OnlyReadable;
    var k := Kernel(0, 0);
    var some := SocketEvent(false, true, false, 0, k, [], k, Bytes([0]), UNFILTERED, true, true, true);
    assert OnlyReadable(some) by {
      IsOnlyReadable(some);
    }
    if SendWindow(m.t) > 0 && m.t.mss > 0 {
      forall e: SocketEvent | OnlyReadable(e) ensures m.log.fetched < CheckTcpSocket(m, e).log.fetched {
        OpenWindowReads(m, e);
      }
      OpenWindowReads(m, some);
    } else {
      forall e: SocketEvent ensures CheckTcpSocket(m, e).log.fetched == m.log.fetched {
        if m.t.mss == 0 {
          NoMssReadsNothing(m, e);
        } else {
          ClosedWindowReadsNothing(m, e);
        }
      }
    }
  }

  lemma IsOnlyReadable(e: SocketEvent)
    requires !e.err && e.readable && !e.writable && e.recv == Bytes([0]) && e.ackOk
    ensures OnlyReadable(e)
  {
  }

  /** A connected session is polled for output exactly when the forwarding loop would get something
      done, so the poll neither spins nor sleeps on data it could send. If it has an MSS, it is polled for
      input exactly when something of what the socket delivers would be read, and otherwise nothing would
      be. What is held back in either direction asks for a recheck, and only that. */
  lemma PolledForProgress(m: Machine, ms: int, k: Kernel, ctlOk: bool, ok: bool)
    requires m.t.state.Established? || m.t.state.CloseWait?
    ensures var (r, recheck) := MonitorTcp(m, ms, k, ctlOk, ok);
            && (r.t.wantOut ==> Forwards(r.t, k)) && (!r.t.wantOut ==> Idles(r.t, k))
            && (r.t.state == m.t.state ==>
                  && (Reads(r) <==> r.t.wantIn && m.t.mss > 0)
                  && (NeverReads(r) <==> !r.t.wantIn || m.t.mss == 0))
            && (recheck <==> !r.t.wantIn || (r.t.forward != [] && Idles(r.t, k)))
  {
    hide SendWindow, KeepAlive, Forwards, Idles, Fits, ReceiveBuffer, Reads, NeverReads, CanForward;
    var (r, recheck) := MonitorTcp(m, ms, k, ctlOk, ok);
    Monitored(m, ms, k, ctlOk, ok);
    CanForwardForwards(r.t, k);
    NotBoth(r.t, k);
    if r.t.state == m.t.state {
      ReadsIff(r);
    }
  }

  lemma NotBoth(t: Tcp, k: Kernel)
    ensures !(Forwards(t, k) && Idles(t, k))
  {
    var sends := [Sent(1)];
    var d := Drain(t.forward, t.remoteSeq, ReceiveBuffer(t.open, k), sends);
    assert Forwards(t, k) ==> d.fwd;
    assert Idles(t, k) ==> !d.fwd;
  }

  lemma Monitored(m: Machine, ms: int, k: Kernel, ctlOk: bool, ok: bool)
    requires m.t.state.Established? || m.t.state.CloseWait?
    ensures var (r, recheck) := MonitorTcp(m, ms, k, ctlOk, ok);
            && r.t.mss == m.t.mss && (r.t.wantIn <==> SendWindow(r.t) > 0) && (r.t.wantOut <==> CanForward(r.t, k))
            && (recheck <==> SendWindow(r.t) == 0 || (r.t.forward != [] && !CanForward(r.t, k)))
  {
    hide SendWindow, KeepAlive, Fits, ReceiveBuffer;
    KeepAliveKeeps(m, ms, ok);
    SameWindow(m.t, KeepAlive(m, ms, ok).t);
    var r := MonitorTcp(m, ms, k, ctlOk, ok).0;
    SameWindow(m.t, r.t);
  }

  lemma SameWindow(a: Tcp, b: Tcp)
    requires b.localSeq == a.localSeq && b.acked == a.acked && b.sendWindow == a.sendWindow
    requires b.unconfirmed == a.unconfirmed
    ensures SendWindow(b) == SendWindow(a)
  {
  }

  // ---- A client that announces an MSS of zero ----

  /** Data that arrives while the window is open closes the socket exactly if the MSS is zero: nothing is
      read then, and that is taken for the end of the stream. */
  lemma DataClosesIffNoMss(m: Machine, e: SocketEvent)
    requires m.t.open && (m.t.state.Established? || m.t.state.CloseWait?)
    requires SendWindow(m.t) > 0 && OnlyReadable(e)
    ensures !CheckTcpSocket(m, e).t.open <==> m.t.mss == 0
  {
    hide Acknowledge, SendWindow, TakeBytes, TakeEof, Shown;
    var m1 := Acknowledge(m, false, e.after, e.now, e.ackOk);
    AcknowledgeKeepsWindow(m, false, e.after, e.now, e.ackOk);
    var m2 := m1.(t := m1.t.(time := e.now));
    var size := if SendWindow(m1.t) > m1.t.mss then m1.t.mss else SendWindow(m1.t);
    var b := if |e.recv.data| <= size then e.recv.data else e.recv.data[..size];
    AcknowledgeKeepsOpen(m, false, e.after, e.now, e.ackOk);
    EofCloses(m2, e.dataOk);
    BytesKeepOpen(m2, b, Shown(b, e.filter), e.dataOk);
  }

  lemma AcknowledgeKeepsOpen(m: Machine, fwd: bool, k: Kernel, now: int, ok: bool)
    ensures Acknowledge(m, fwd, k, now, ok).t.open == m.t.open
  {
    hide ReceiveWindow, Outgoing;
  }

  lemma EofCloses(m: Machine, ok: bool)
    ensures !TakeEof(m, ok).t.open
  {
  }

  lemma BytesKeepOpen(m: Machine, b: Payload, shown: Payload, ok: bool)
    ensures TakeBytes(m, b, shown, ok).t.open == m.t.open
  {
    hide Outgoing;
  }

  predicate Stands(m: Machine, s: State, localSeq: u32, acked: u32) {
    && m.t.state == s && m.t.open && m.t.localSeq == localSeq && m.t.acked == acked && m.t.mss == 0
    && m.t.forward == [] && m.log.fetched == []
  }

  lemma Connects()
    ensures Stands(Step(NewSession(SYN, 0, 0, 100, 0, QUIET), Writable([])), SynRecv, 101, 0)
    ensures Step(NewSession(SYN, 0, 0, 100, 0, QUIET), Writable([])).t.sendScale == 0
  {
    hide ReceiveWindow, Outgoing;
  }

  lemma Establishes(m: Machine)
    requires Stands(m, SynRecv, 101, 0) && m.t.sendScale == 0
    ensures var r := Step(m, Acks(101));
            Stands(r, Established, 101, 101) && r.t.sendWindow == 1000 && r.t.unconfirmed == 0
  {
  }

  lemma Closes(m: Machine)
    requires Stands(m, Established, 101, 101) && m.t.sendWindow == 1000 && m.t.unconfirmed == 0
    ensures !Step(m, Readable([7])).t.open && Step(m, Readable([7])).log.fetched == []
  {
    hide CheckTcpSocket, SendWindow;
    assert SendWindow(m.t) == 960 by {
      OpenWindow(m.t);
    }
    DataClosesIffNoMss(m, Readable([7]).e);
    NoMssReadsNothing(m, Readable([7]).e);
  }

  lemma OpenWindow(t: Tcp)
    requires t.localSeq == t.acked == 101 && t.sendWindow == 1000 && t.unconfirmed == 0
    ensures SendWindow(t) == 960
  {
  }

  /** The server's first byte ends a session whose client announced an MSS of zero. */
  lemma ZeroMssEndsSession()
    ensures var m := Run(NewSession(SYN, 0, 0, 100, 0, QUIET), [Writable([]), Acks(101), Readable([7])]);
            !m.t.open && m.log.fetched == []
  {
    hide Step, NewSession;
    var m0 := NewSession(SYN, 0, 0, 100, 0, QUIET);
    var m1 := Step(m0, Writable([]));
    var m2 := Step(m1, Acks(101));
    Connects();
    Establishes(m1);
    Closes(m2);
    RunOfThree(m0, Writable([]), Acks(101), Readable([7]));
  }
}
