/** What the event loop does to a session: exactly which events at the socket, polls and sweeps move it on. */
module TcpLoop {
  import opened Words
  import opened Reassembly
  import opened TcpModel
  import opened TcpReceive
  import opened TcpProgress
  import A = TcpAnswers
  import D = TcpDelivery
  import P = TcpPackets

  // ---- The SYN ----

  /** A SYN registers a session that listens for its connection, polled for output alone, with the client's numbers,
      window, scale and MSS, and the data of the SYN queued; the sweep leaves it alone for the time it may be silent. */
  lemma Registered(p: Packet, mss: u16, ws: u8, isn: u32, now: int, k: Kernel)
    ensures var t := NewSession(p, mss, ws, isn, now, k).t;
            && t.state.Listen? && t.open && t.wantOut && !t.wantIn
            && t.localSeq == t.localStart == isn && t.remoteSeq == t.remoteStart == p.seqno
            && t.mss == mss && t.recvScale == t.sendScale == ws && t.sendWindow == (p.window * Pow2(ws)) % TWO32
            && t.recvWindow == ReceiveWindow(t, k)
            && t.acked == t.unconfirmed == t.lastKeepAlive == t.sent == t.received == 0
            && t.forward == (if p.data == [] then [] else [Segment(p.seqno, p.data, 0, p.psh)])
            && forall later, timeout :: Expired(t, later, timeout) <==> now + timeout < later
  {
    hide Pow2, ReceiveBuffer;
  }

  // ---- The socket ----

  /** The connection is there, and is answered with SYN and ACK, exactly once the socket can be written to; an error at
      the socket resets. */
  lemma ConnectedIff(m: Machine, e: SocketEvent)
    requires m.t.open && m.t.state.Listen?
    ensures var r := Step(m, FromSocket(e));
            && (r.t.state.SynRecv? <==> !e.err && e.writable && e.ackOk)
            && (r.t.state.Closing? <==> e.err || (e.writable && !e.ackOk))
            && (r.t.state.Listen? || r.t.state.SynRecv? || r.t.state.Closing?)
            && (r.t.state.SynRecv? ==>
                  && |r.log.out| == |m.log.out| + 1 && m.log.out <= r.log.out
                  && r.log.out[|m.log.out|].(window := 0)
                     == Packet(m.t.localSeq, Wrap(m.t.remoteSeq + 1), 0, [], false, true, false, false, true, false)
                  && r.t.localSeq == Wrap(m.t.localSeq + 1) && r.t.remoteSeq == Wrap(m.t.remoteSeq + 1)
                  && r.t.time == e.now)
  {
    hide Transfer, Pow2, Wrap;
  }

  /** An error at the socket ends every session with a reset. */
  lemma ErrorResets(m: Machine, e: SocketEvent)
    requires m.t.open && e.err && e.rstOk && !m.t.state.Close?
    ensures var r := Step(m, FromSocket(e));
            && r.t.state.Closing? && |r.log.out| == |m.log.out| + 1 && m.log.out <= r.log.out
            && P.IsReset(r.log.out[|m.log.out|], m.t)
  {
    hide Transfer, Pow2, Wrap;
  }

  /** The socket is read in this event. */
  predicate IsRead(m: Machine, e: SocketEvent) {
    (m.t.state.Established? || m.t.state.CloseWait?) && e.readable && SendWindow(m.t) > 0
  }

  /** What is read is taken for the end of the server's stream. */
  predicate Ended(m: Machine, e: SocketEvent) {
    IsRead(m, e) && e.recv.Bytes? && (e.recv.data == [] || m.t.mss == 0)
  }

  predicate Failed(m: Machine, e: SocketEvent) {
    IsRead(m, e) && e.recv.RecvError? && !e.recv.retry
  }

  /** Once connected, with sends and writes that succeed: the session sends its FIN exactly at the end of the server's
      stream with nothing left to forward, and is reset exactly if something is left then, or if reading fails. The
      socket is closed exactly at the end of the stream. */
  lemma SocketMovesIff(m: Machine, e: SocketEvent)
    requires m.t.open && !m.t.state.Listen? && !e.err && e.ackOk && e.dataOk && D.NoneBroken(e.sends)
    requires !Closed(m.t.state)
    ensures var r := Step(m, FromSocket(e)).t;
            && (r.open <==> !Ended(m, e))
            && (r.state != m.t.state <==> Ended(m, e) || Failed(m, e))
            && (Ended(m, e) && r.forward == [] ==>
                  r.state == if m.t.state.Established? then FinWait1 else LastAck)
            && ((Ended(m, e) && r.forward != []) || Failed(m, e) ==> r.state.Closing?)
  {
    hide Forward, Acknowledge, Fetch, SendWindow, Step;
    A.SocketStep(m, e);
    var (m1, fwd) := if e.writable then Forward(m, e.before, e.sends, e.rstOk) else (m, false);
    ForwardWorks(m, e);
    AcknowledgeKeepsWindow(m1, fwd, e.after, e.now, e.ackOk);
    AcknowledgeKeepsOpen(m1, fwd, e.after, e.now, e.ackOk);
    var m2 := Acknowledge(m1, fwd, e.after, e.now, e.ackOk);
    if MayFetch(m2.t, e.readable) {
      FetchMoves(m2, e.recv, e.filter, e.now);
    }
  }

  lemma ForwardWorks(m: Machine, e: SocketEvent)
    requires D.NoneBroken(e.sends)
    ensures var r := Forward(m, e.before, e.sends, e.rstOk).0;
            && r.t.state == m.t.state && r.t.open == m.t.open && r.t.mss == m.t.mss
            && SendWindow(r.t) == SendWindow(m.t)
  {
    hide Drain, SendWindow;
    D.DrainUnbroken(m.t.forward, m.t.remoteSeq, ReceiveBuffer(m.t.open, e.before), e.sends);
    ForwardKeepsWindow(m, e.before, e.sends, e.rstOk);
  }

  lemma FetchMoves(m: Machine, recv: RecvResult, filter: Filter, now: int)
    requires MayFetch(m.t, true)
    ensures var r := Fetch(m, recv, filter, now, true).t;
            var ended := recv.Bytes? && (recv.data == [] || m.t.mss == 0);
            var failed := recv.RecvError? && !recv.retry;
            && r.forward == m.t.forward && (r.open <==> m.t.open && !ended)
            && r.state == if failed || (ended && m.t.forward != []) then Closing
                          else if ended then if m.t.state.Established? then FinWait1 else LastAck
                          else m.t.state
  {
    hide SendWindow, Outgoing, Shown;
  }

  /** What the socket delivers is read, counted and written to the client as one packet, up to what the client's window
      and its MSS allow; nothing else is read. When the packet cannot be written the session is closed. */
  lemma ReadsAsMuchAsAllowed(m: Machine, e: SocketEvent)
    requires m.t.open && !m.t.state.Listen? && !e.err && e.ackOk && D.NoneBroken(e.sends)
    ensures var r := Step(m, FromSocket(e));
            if !IsRead(m, e) || Ended(m, e) || e.recv.RecvError? then
              r.log.fetched == m.log.fetched && r.t.received == m.t.received
            else
              var n := Least(|e.recv.data|, Least(SendWindow(m.t), m.t.mss));
              && r.log.fetched == m.log.fetched + e.recv.data[..n] && r.t.received == m.t.received + n
              && (if e.dataOk then
                    && r.t.localSeq == Wrap(m.t.localSeq + n) && r.t.state == m.t.state && m.log.out < r.log.out
                    && r.t.unconfirmed == (m.t.unconfirmed + 1) % TWO16
                    && Carries(r.log.out[|r.log.out| - 1], m.t.localSeq, r.t.remoteSeq, e.recv.data[..n], e.filter)
                  else r.t.state.Closing?)
  {
    hide Forward, Acknowledge, Fetch, SendWindow, Step, Carries;
    A.SocketStep(m, e);
    var (m1, fwd) := if e.writable then Forward(m, e.before, e.sends, e.rstOk) else (m, false);
    ForwardWorks(m, e);
    ForwardSilent(m, e);
    AcknowledgeKeepsWindow(m1, fwd, e.after, e.now, e.ackOk);
    A.AcknowledgeSays(m1, fwd, e.after, e.now);
    AcknowledgeReads(m1, fwd, e.after, e.now);
    var m2 := Acknowledge(m1, fwd, e.after, e.now, e.ackOk);
    if MayFetch(m2.t, e.readable) {
      FetchReadsBytes(m2, e.recv, e.filter, e.now, e.dataOk);
    }
  }

  /** The packet acknowledges, is numbered seqno, and has what is shown of the data. */
  predicate Carries(p: Packet, seqno: u32, ackno: u32, data: Payload, filter: Filter) {
    p.(window := 0) == Packet(seqno, ackno, 0, Shown(data, filter), false, true, false, false, false, false)
  }

  lemma ForwardSilent(m: Machine, e: SocketEvent)
    requires D.NoneBroken(e.sends)
    ensures var r := Forward(m, e.before, e.sends, e.rstOk).0;
            && r.log == m.log.(accepted := r.log.accepted) && r.t.received == m.t.received
            && r.t.localSeq == m.t.localSeq && r.t.unconfirmed == m.t.unconfirmed && r.t.time == m.t.time
  {
    hide Drain;
    D.DrainUnbroken(m.t.forward, m.t.remoteSeq, ReceiveBuffer(m.t.open, e.before), e.sends);
  }

  lemma AcknowledgeReads(m: Machine, fwd: bool, k: Kernel, now: int)
    ensures var r := Acknowledge(m, fwd, k, now, true);
            && r.log.fetched == m.log.fetched && r.t.received == m.t.received && r.t.localSeq == m.t.localSeq
            && r.t.unconfirmed == m.t.unconfirmed
            && r.t.time == if fwd || (m.t.recvWindow == 0 && r.t.recvWindow > 0) then now else m.t.time
  {
    hide ReceiveWindow, Pow2, Wrap;
  }

  lemma FetchReadsBytes(m: Machine, recv: RecvResult, filter: Filter, now: int, ok: bool)
    requires MayFetch(m.t, true)
    ensures var r := Fetch(m, recv, filter, now, ok);
            if recv.RecvError? || recv.data == [] || m.t.mss == 0 then
              r.log.fetched == m.log.fetched && r.t.received == m.t.received
            else
              var n := Least(|recv.data|, Least(SendWindow(m.t), m.t.mss));
              && r.log.fetched == m.log.fetched + recv.data[..n] && r.t.received == m.t.received + n
              && (if ok then
                    && r.t.localSeq == Wrap(m.t.localSeq + n) && r.t.state == m.t.state && m.log.out < r.log.out
                    && r.t.remoteSeq == m.t.remoteSeq && r.t.unconfirmed == (m.t.unconfirmed + 1) % TWO16
                    && Carries(r.log.out[|r.log.out| - 1], m.t.localSeq, m.t.remoteSeq, recv.data[..n], filter)
                  else r.t.state.Closing?)
  {
    hide SendWindow, WriteRst, TakeEof, Shown, Pow2, Wrap;
    var m1 := m.(t := m.t.(time := now));
    EndReadsNothing(m1, ok);
    if recv.Bytes? {
      var size := if SendWindow(m.t) > m.t.mss then m.t.mss else SendWindow(m.t);
      assert recv.data[..|recv.data|] == recv.data;
    }
  }

  lemma EndReadsNothing(m: Machine, ok: bool)
    ensures forall r <- [WriteRst(m, ok), TakeEof(m, ok)] ::
              r.log.fetched == m.log.fetched && r.t.received == m.t.received
  {
    hide Outgoing;
  }

  /** An event renews the time stamp exactly if the socket takes something, the receive window opens, or the socket is
      read. */
  lemma TouchedIff(m: Machine, e: SocketEvent)
    requires m.t.open && !m.t.state.Listen? && !e.err && e.ackOk && D.NoneBroken(e.sends)
    ensures var r := Step(m, FromSocket(e)).t;
            var opens := m.t.recvWindow == 0 && r.recvWindow > 0;
            r.time == if A.SocketTakes(m.t, e) || opens || IsRead(m, e) then e.now else m.t.time
  {
    hide Forward, Acknowledge, Fetch, SendWindow, Step, CanForward;
    A.SocketStep(m, e);
    var (m1, fwd) := if e.writable then Forward(m, e.before, e.sends, e.rstOk) else (m, false);
    ForwardWorks(m, e);
    ForwardSilent(m, e);
    if e.writable {
      A.ForwardsIff(m, e);
    }
    ForwardWindow(m, e.before, e.sends, e.rstOk);
    AcknowledgeKeepsWindow(m1, fwd, e.after, e.now, e.ackOk);
    AcknowledgeReads(m1, fwd, e.after, e.now);
    FetchTouches(Acknowledge(m1, fwd, e.after, e.now, e.ackOk), e.recv, e.filter, e.now, e.dataOk);
  }

  lemma FetchTouches(m: Machine, recv: RecvResult, filter: Filter, now: int, ok: bool)
    ensures var r := Fetch(m, recv, filter, now, ok).t; r.time == now && r.recvWindow == m.t.recvWindow
  {
    hide SendWindow, TakeEof, TakeBytes, WriteRst, Shown;
    var m1 := m.(t := m.t.(time := now));
    EndTouches(m1, ok);
    if recv.Bytes? {
      var size := if SendWindow(m.t) > m.t.mss then m.t.mss else SendWindow(m.t);
      var b := if |recv.data| <= size then recv.data else recv.data[..size];
      BytesTouch(m1, b, Shown(b, filter), ok);
    }
  }

  lemma EndTouches(m: Machine, ok: bool)
    ensures forall r <- [WriteRst(m, ok), TakeEof(m, ok)] :: r.t.time == m.t.time && r.t.recvWindow == m.t.recvWindow
  {
    hide Outgoing;
  }

  lemma BytesTouch(m: Machine, b: Payload, shown: Payload, ok: bool)
    ensures var r := TakeBytes(m, b, shown, ok).t; r.time == m.t.time && r.recvWindow == m.t.recvWindow
  {
    hide Outgoing;
  }

  /** A send that fails for good resets the session, and the first does when the loop gets to it. */
  lemma BrokenSendResets(m: Machine, e: SocketEvent)
    requires m.t.open && !m.t.state.Listen? && !m.t.state.Close? && !e.err && e.writable && e.rstOk && e.ackOk
    ensures var d := Drain(m.t.forward, m.t.remoteSeq, ReceiveBuffer(true, e.before), e.sends);
            var r := Step(m, FromSocket(e));
            && (d.broken ==> r.t.state.Closing? && |r.log.out| > |m.log.out| && P.IsReset(r.log.out[|m.log.out|], m.t))
            && (e.sends != [] && e.sends[0].Broken? ==> (d.broken <==> CanForward(m.t, e.before)))
  {
    hide Acknowledge, SendWindow, ReceiveBuffer, Step, Drain, Fits, Fetch;
    A.SocketStep(m, e);
    var d := Drain(m.t.forward, m.t.remoteSeq, ReceiveBuffer(true, e.before), e.sends);
    var (m1, fwd) := Forward(m, e.before, e.sends, e.rstOk);
    FirstBreaks(m.t.forward, m.t.remoteSeq, ReceiveBuffer(true, e.before), e.sends);
    P.ResetIs(AfterDrain(m, d), e.rstOk);
    A.AcknowledgeSays(m1, fwd, e.after, e.now);
  }

  lemma FirstBreaks(q: seq<Segment>, remote: u32, buffer: BufferSize, sends: seq<SendResult>)
    ensures sends != [] && sends[0].Broken? ==>
              (Drain(q, remote, buffer, sends).broken <==> q != [] && q[0].seqno == remote && Fits(q[0], buffer))
  {
  }

  // ---- The sweep ----

  /** The session lives and has not been heard of for longer than it may be silent. */
  predicate Expired(t: Tcp, now: int, timeout: int) {
    !Closed(t.state) && t.time + timeout < now
  }

  /** A sweep ends exactly the sessions that are closing and those that have expired, of which it resets those that
      have a connection, and closes their sockets. What was carried is reported once the session is over. It is freed
      exactly if it was over before, and has been kept for five minutes. */
  lemma SweptIff(m: Machine, now: int, timeout: int, ok: bool)
    ensures var (r, freed) := CheckTcpSession(m, now, timeout, ok);
            var expired := Expired(m.t, now, timeout);
            && r.t.state == (if m.t.state.Closing? || expired then Close else m.t.state)
            && r.t.open == (m.t.open && !m.t.state.Closing? && !expired)
            && r.t.time == (if m.t.state.Closing? || expired then now else m.t.time)
            && (if expired && !m.t.state.Listen? && ok then
                  && |r.log.out| == |m.log.out| + 1 && m.log.out <= r.log.out
                  && P.IsReset(r.log.out[|m.log.out|], m.t)
                else r.log.out == m.log.out)
            && (if r.t.state.Close? && m.t.sent + m.t.received > 0 then
                  r.log.usage == m.log.usage + [Usage(m.t.sent, m.t.received)] && r.t.sent == r.t.received == 0
                else r.log.usage == m.log.usage && r.t.sent == m.t.sent && r.t.received == m.t.received)
            && (freed <==> m.t.state.Close? && m.t.time + 300 < now)
  {
    hide WriteRst, Expire, CloseSocket, Account, P.IsReset;
    var m1 := Expire(m, now, timeout, ok);
    ExpireIs(m, now, timeout, ok);
    ClosedAndReported(m1, now);
  }

  lemma ExpireIs(m: Machine, now: int, timeout: int, ok: bool)
    ensures var r := Expire(m, now, timeout, ok);
            && r.t.(remoteSeq := m.t.remoteSeq) == m.t.(state := r.t.state) && r.log.usage == m.log.usage
            && r.t.state == (if Expired(m.t, now, timeout) then Closing else m.t.state)
            && (if Expired(m.t, now, timeout) && !m.t.state.Listen? && ok then
                  && |r.log.out| == |m.log.out| + 1 && m.log.out <= r.log.out
                  && P.IsReset(r.log.out[|m.log.out|], m.t)
                else r.log.out == m.log.out)
  {
    hide WriteRst, P.IsReset;
    P.ResetIs(m, ok);
  }

  lemma ClosedAndReported(m: Machine, now: int)
    ensures var r := Account(CloseSocket(m, now));
            && r.t.state == (if m.t.state.Closing? then Close else m.t.state)
            && r.t.open == (m.t.open && !m.t.state.Closing?) && r.log.out == m.log.out
            && r.t.time == (if m.t.state.Closing? then now else m.t.time)
            && (if r.t.state.Close? && m.t.sent + m.t.received > 0 then
                  r.log.usage == m.log.usage + [Usage(m.t.sent, m.t.received)] && r.t.sent == r.t.received == 0
                else r.log.usage == m.log.usage && r.t.sent == m.t.sent && r.t.received == m.t.received)
  {
  }

  /** A session whose owner loses the network is reset unless it is over, whatever its state. */
  lemma DisallowedIff(m: Machine, ok: bool)
    ensures var r := Step(m, Disallow(ok));
            if Closed(m.t.state) then r == m
            else
              && r.t.state.Closing?
              && (if ok then |r.log.out| == |m.log.out| + 1 && m.log.out <= r.log.out
                             && P.IsReset(r.log.out[|m.log.out|], m.t)
                  else r.log.out == m.log.out)
  {
    hide Pow2;
  }

  // ---- The poll ----

  /** A session without a connection is polled for output alone, which reports the connection; one that is closing, or
      has sent its FIN, or waits for the client's acknowledgement is polled for errors alone. */
  lemma PolledOtherwise(m: Machine, ms: int, k: Kernel, ok: bool)
    requires !m.t.state.Established? && !m.t.state.CloseWait?
    ensures var (r, recheck) := MonitorTcp(m, ms, k, true, ok);
            r == m.(t := m.t.(wantIn := false, wantOut := m.t.state.Listen?)) && !recheck
  {
  }

  /** When the poll cannot be changed the session is closed, and only if it was to be changed. */
  lemma PollFails(m: Machine, ms: int, k: Kernel)
    requires !Closed(m.t.state)
    ensures var r := MonitorTcp(m, ms, k, false, true).0.t;
            r.state.Closing? <==> r.wantIn != m.t.wantIn || r.wantOut != m.t.wantOut
  {
    hide SendWindow, CanForward, Outgoing;
  }

  /** A keep-alive is due: the client takes nothing, and the last one is a while ago. */
  predicate KeepAliveDue(t: Tcp, ms: int) {
    (t.state.Established? || t.state.CloseWait?) && SendWindow(t) == 0 && ms - t.lastKeepAlive > 100
  }

  /** A keep-alive is sent exactly when one is due. It acknowledges one number less than was taken, which makes the
      client say again what it has; nothing else changes but the time of the last one. */
  lemma KeptAliveIff(m: Machine, ms: int, k: Kernel)
    ensures var r := MonitorTcp(m, ms, k, true, true).0;
            && r.t.(wantIn := m.t.wantIn, wantOut := m.t.wantOut)
               == (if KeepAliveDue(m.t, ms) then m.t.(lastKeepAlive := ms) else m.t)
            && (if KeepAliveDue(m.t, ms) then
                  && |r.log.out| == |m.log.out| + 1 && m.log.out <= r.log.out
                  && r.log.out[|m.log.out|].(window := 0)
                     == Packet(m.t.localSeq, Wrap(m.t.remoteSeq - 1), 0, [], false, true, false, false, false, false)
                else r.log == m.log)
  {
    hide SendWindow, CanForward, Pow2, Wrap;
    WrapAdd(m.t.remoteSeq - 1, 1);
    Unwrapped(m.t.remoteSeq);
  }

  lemma Unwrapped(x: u32)
    ensures Wrap(x) == x
  {
  }
}
