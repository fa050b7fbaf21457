/** What a packet of the client does to its session: exactly which packets move it on, and what answers them. */
module TcpPackets {
  import opened Words
  import opened Serial
  import opened Reassembly
  import opened TcpModel
  import opened TcpCloseWait

  // ---- How packets are taken ----

  /** p carries data, and its socket is closed already or the client has sent its FIN. */
  predicate Late(t: Tcp, p: Packet) {
    p.data != [] && (!t.open || t.state.CloseWait?)
  }

  /** p is heard: it is not urgent, the session lives, and what it carries can be taken. */
  predicate Heard(t: Tcp, p: Packet) {
    !p.urg && !Closed(t.state) && !Late(t, p)
  }

  /** p is answered with a reset. */
  predicate Refused(t: Tcp, p: Packet) {
    !p.urg && (Closed(t.state) || Late(t, p) || (!p.rst && p.ack && Future(t, p.ackno)))
  }

  /** p resets the session. */
  predicate Resets(t: Tcp, p: Packet) {
    Heard(t, p) && p.rst
  }

  /** p is up to date with all that was sent, and is neither a reset nor a SYN. */
  predicate Current(t: Tcp, p: Packet) {
    Heard(t, p) && !p.rst && !p.syn && (p.ack ==> p.ackno == t.localSeq)
  }

  /** p is heard as a FIN. */
  predicate Finishes(t: Tcp, p: Packet) {
    Current(t, p) && p.fin
  }

  /** p is heard as the acknowledgement of all that was sent. */
  predicate Confirms(t: Tcp, p: Packet) {
    Current(t, p) && !p.fin && p.ack
  }

  /** Once p is queued, data waits to be forwarded. */
  predicate Waits(t: Tcp, p: Packet) {
    t.forward != [] || (p.data != [] && CompareU32(p.seqno, t.remoteSeq) >= 0)
  }

  /** p acknowledges less than all that was sent, by more than one number, but more than was acknowledged. */
  predicate Previous(t: Tcp, ackno: u32) {
    && ackno != t.localSeq && Wrap(ackno + 1) != t.localSeq
    && CompareU32(ackno, t.localSeq) < 0 && CompareU32(ackno, t.acked) > 0
  }

  // ---- What is written ----

  /** p answers with a reset, numbered as all other packets; only one that answers a SYN acknowledges it. */
  predicate IsReset(p: Packet, t: Tcp) {
    && p.seqno == t.localSeq && p.data == [] && p.rst && !p.urg && !p.syn && !p.fin
    && p.ack == t.state.Listen? && p.ackno == if p.ack then Wrap(t.remoteSeq + 1) else 0
  }

  /** p acknowledges one number more than t has taken so far. */
  predicate TakesOneMore(p: Packet, t: Tcp) {
    && p.seqno == t.localSeq && p.data == [] && !p.rst && !p.urg && !p.syn && !p.fin
    && p.ack && p.ackno == Wrap(t.remoteSeq + 1)
  }

  /** The FIN is counted and acknowledged at once. */
  predicate CountsFin(t: Tcp, p: Packet) {
    Finishes(t, p) && (t.state.FinWait1? || (t.state.Established? && !Waits(t, p)))
  }

  // ---- What handle_tcp comes to ----

  /** m as it is when the flags of p are looked at. */
  function Prepared(m: Machine, p: Packet, now: int): Machine {
    Enqueue(Refresh(m, p, now), p)
  }

  predicate SameButForward(a: Tcp, b: Tcp) {
    && b.state == a.state && b.open == a.open && b.localSeq == a.localSeq && b.remoteSeq == a.remoteSeq
    && b.acked == a.acked && b.recvWindow == a.recvWindow && b.recvScale == a.recvScale
  }

  lemma InsertsSomething(q: seq<Segment>, seqno: u32, data: Payload, psh: bool)
    ensures Insert(q, seqno, data, psh) != []
  {
  }

  lemma PreparedIs(m: Machine, p: Packet, now: int)
    ensures var r := Prepared(m, p, now);
            && SameButForward(m.t, Refresh(m, p, now).t) && SameButForward(m.t, r.t) && r.log == m.log
            && (r.t.forward == [] <==> !Waits(m.t, p))
            && r.t.time == Refresh(m, p, now).t.time && r.t.sendWindow == Refresh(m, p, now).t.sendWindow
            && r.t.unconfirmed == 0
            && r.t.forward == if p.data != [] && CompareU32(p.seqno, m.t.remoteSeq) >= 0
                              then Insert(m.t.forward, p.seqno, p.data, p.psh) else m.t.forward
  {
    hide Shl32, CompareU32, Insert;
    InsertsSomething(m.t.forward, p.seqno, p.data, p.psh);
  }

  /** Which of the things a packet can do it does. */
  lemma FlagsSay(m: Machine, p: Packet, ok: bool)
    ensures var r := TakeFlags(m, p, ok);
            var known := p.ack ==> p.ackno == m.t.localSeq;
            if p.rst then r == m.(t := m.t.(state := Closing))
            else if p.ack && Future(m.t, p.ackno) then r == WriteRst(m, ok)
            else if p.ack && Previous(m.t, p.ackno) then r == m.(t := m.t.(acked := p.ackno))
            else if known && !p.syn && p.fin then r == TakeFin(m, ok)
            else if known && !p.syn && p.ack then r == TakeAck(m, p.ackno)
            else r == m
  {
    hide WriteRst, TakeFin, TakeAck, Wrap;
    CompareIsZeroIff(p.ackno, m.t.localSeq);
  }

  lemma CompareIsZeroIff(a: u32, b: u32)
    ensures CompareU32(a, b) == 0 <==> a == b
  {
  }

  lemma Taken(m: Machine, p: Packet, now: int, ok: bool)
    ensures var r := HandleTcp(m, p, now, ok);
            if p.urg then r == m
            else if Closed(m.t.state) then r == WriteRst(m, ok)
            else if Late(m.t, p) then r == WriteRst(Refresh(m, p, now), ok)
            else r == TakeFlags(Prepared(m, p, now), p, ok)
  {
    hide WriteRst, TakeFlags, Enqueue, Shl32;
  }

  /** b is a with a reset written; a session in CLOSE stays there. */
  predicate Reset(a: Machine, b: Machine, ok: bool) {
    && b.t == a.t.(state := if a.t.state.Close? then Close else Closing, remoteSeq := b.t.remoteSeq)
    && b.t.remoteSeq == (if a.t.state.Listen? then Wrap(a.t.remoteSeq + 1) else a.t.remoteSeq)
    && b.log == a.log.(out := b.log.out, synIn := a.log.synIn + if a.t.state.Listen? then 1 else 0)
    && (if ok then |b.log.out| == |a.log.out| + 1 && a.log.out <= b.log.out && IsReset(b.log.out[|a.log.out|], a.t)
        else b.log.out == a.log.out)
  }

  lemma ResetIs(m: Machine, ok: bool)
    ensures Reset(m, WriteRst(m, ok), ok)
  {
    hide Pow2;
  }

  /** b is a with the FIN counted and acknowledged. */
  predicate FinTaken(a: Machine, b: Machine, ok: bool) {
    && b.t == a.t.(state := b.t.state, remoteSeq := Wrap(a.t.remoteSeq + 1))
    && b.t.state == (if !ok then Closing else if a.t.state.FinWait1? then Close else CloseWait)
    && b.log == a.log.(out := b.log.out, finIn := a.log.finIn + 1)
    && (if ok then |b.log.out| == |a.log.out| + 1 && a.log.out <= b.log.out
                   && TakesOneMore(b.log.out[|a.log.out|], a.t)
        else b.log.out == a.log.out)
  }

  lemma TakeFinIs(m: Machine, ok: bool)
    ensures var r := TakeFin(m, ok);
            if m.t.state.FinWait1? || (m.t.state.Established? && m.t.forward == []) then FinTaken(m, r, ok)
            else r == m.(t := m.t.(state := if m.t.state.Established? then CloseWait else m.t.state))
  {
    hide Pow2;
  }

  lemma TakeAckIs(m: Machine, ackno: u32)
    ensures var r := TakeAck(m, ackno);
            && r == m.(t := m.t.(acked := ackno, state := r.t.state))
            && r.t.state == match m.t.state
                            case SynRecv => Established
                            case LastAck => Closing
                            case _ => m.t.state
  {
  }

  /** What becomes of m, by the way in which p is taken. */
  lemma HandledIs(m: Machine, p: Packet, now: int, ok: bool)
    ensures var r := HandleTcp(m, p, now, ok);
            var m2 := Prepared(m, p, now);
            if p.urg then r == m
            else if Refused(m.t, p) then
              Reset(if Closed(m.t.state) then m else if Late(m.t, p) then Refresh(m, p, now) else m2, r, ok)
            else if Resets(m.t, p) then r == m2.(t := m2.t.(state := Closing))
            else if CountsFin(m.t, p) then FinTaken(m2, r, ok)
            else if Finishes(m.t, p) then
              r == m2.(t := m2.t.(state := if m.t.state.Established? then CloseWait else m.t.state))
            else if Confirms(m.t, p) then
              r == m2.(t := m2.t.(acked := p.ackno, state := r.t.state))
              && r.t.state == match m.t.state
                              case SynRecv => Established
                              case LastAck => Closing
                              case _ => m.t.state
            else if p.ack && Previous(m.t, p.ackno) then r == m2.(t := m2.t.(acked := p.ackno))
            else r == m2
  {
    hide HandleTcp, WriteRst, TakeFlags, TakeFin, TakeAck, Prepared, Waits, Reset, FinTaken, Refresh, CompareU32;
    var m2 := Prepared(m, p, now);
    Taken(m, p, now, ok);
    if !p.urg {
      PreparedIs(m, p, now);
      if Closed(m.t.state) {
        ResetIs(m, ok);
      } else if Late(m.t, p) {
        ResetIs(Refresh(m, p, now), ok);
      } else {
        FlagsSay(m2, p, ok);
        ResetIs(m2, ok);
        TakeFinIs(m2, ok);
        TakeAckIs(m2, p.ackno);
      }
    }
  }

  // ---- Where packets lead ----

  /** Before it is established a session is ended by the packets that are refused and by resets; the current
      acknowledgement establishes one in SYN_RECV, and no other packet moves it. */
  lemma EstablishedIff(m: Machine, p: Packet, now: int, ok: bool)
    requires m.t.state.Listen? || m.t.state.SynRecv?
    ensures var s := HandleTcp(m, p, now, ok).t.state;
            && (s.Closing? <==> Refused(m.t, p) || Resets(m.t, p))
            && (s.Established? <==> m.t.state.SynRecv? && Confirms(m.t, p))
            && (s == m.t.state || s.Closing? || s.Established?)
  {
    hide HandleTcp, Prepared, Waits, Wrap, Shl32, CompareU32;
    PreparedIs(m, p, now);
    HandledIs(m, p, now, ok);
  }

  /** An established session learns that the client is done exactly from a packet that is heard as a FIN, provided
      that its acknowledgement, which is due unless data waits, can be written. */
  lemma CloseWaitIff(m: Machine, p: Packet, now: int, ok: bool)
    requires m.t.state.Established?
    ensures var s := HandleTcp(m, p, now, ok).t.state;
            && (s.CloseWait? <==> Finishes(m.t, p) && (ok || Waits(m.t, p)))
            && (s.Closing? <==> Refused(m.t, p) || Resets(m.t, p) || (Finishes(m.t, p) && !ok && !Waits(m.t, p)))
            && (s.Established? || s.CloseWait? || s.Closing?)
  {
    hide HandleTcp, Prepared, Waits, Wrap, Shl32, CompareU32;
    PreparedIs(m, p, now);
    HandledIs(m, p, now, ok);
  }

  /** A session that has sent its FIN first is over exactly when the client's arrives. */
  lemma ClosedByFinIff(m: Machine, p: Packet, now: int, ok: bool)
    requires m.t.state.FinWait1?
    ensures var s := HandleTcp(m, p, now, ok).t.state;
            && (s.Close? <==> Finishes(m.t, p) && ok)
            && (s.Closing? <==> Refused(m.t, p) || Resets(m.t, p) || (Finishes(m.t, p) && !ok))
            && (s.FinWait1? || s.Closing? || s.Close?)
  {
    hide HandleTcp, Prepared, Waits, Wrap, Shl32, CompareU32;
    PreparedIs(m, p, now);
    HandledIs(m, p, now, ok);
  }

  /** Exactly which packets end a session that waits for the last acknowledgement: those that are not urgent and have
      data, or RST, or the current acknowledgement with neither SYN nor FIN, or one of what was never sent. */
  lemma LastAckIff(m: Machine, p: Packet, now: int, ok: bool)
    requires m.t.state.LastAck? && !m.t.open
    ensures var s := HandleTcp(m, p, now, ok).t.state;
            && (s.Closing? <==>
                  !p.urg && (p.data != [] || p.rst || (p.ack && p.ackno == m.t.localSeq && !p.syn && !p.fin)
                             || (p.ack && Future(m.t, p.ackno))))
            && (s.LastAck? || s.Closing?)
  {
    hide HandleTcp, Prepared, Waits, Wrap, Shl32, CompareU32;
    PreparedIs(m, p, now);
    HandledIs(m, p, now, ok);
  }

  /** What is over stays as it is. */
  lemma OverStaysOver(m: Machine, p: Packet, now: int, ok: bool)
    requires Closed(m.t.state)
    ensures HandleTcp(m, p, now, ok).t == m.t
  {
  }

  // ---- What is written ----

  /** A packet that is refused is answered with a reset, a FIN behind which nothing waits with its acknowledgement,
      and no other packet is answered at all. */
  lemma AnsweredIff(m: Machine, p: Packet, now: int)
    ensures var out := HandleTcp(m, p, now, true).log.out;
            && m.log.out <= out && |out| <= |m.log.out| + 1
            && (|out| > |m.log.out| <==> Refused(m.t, p) || CountsFin(m.t, p))
            && (Refused(m.t, p) ==> IsReset(out[|m.log.out|], m.t))
            && (CountsFin(m.t, p) ==> TakesOneMore(out[|m.log.out|], m.t))
  {
    hide HandleTcp, Prepared, Waits, Wrap, Shl32, CompareU32;
    PreparedIs(m, p, now);
    HandledIs(m, p, now, true);
  }

  /** Nothing is written when writing fails. */
  lemma NotWritten(m: Machine, p: Packet, now: int)
    ensures HandleTcp(m, p, now, false).log.out == m.log.out
  {
    hide HandleTcp, Prepared, Waits, Wrap, Shl32, CompareU32;
    PreparedIs(m, p, now);
    HandledIs(m, p, now, false);
  }

  // ---- What is remembered ----

  /** A packet of a living session that is not urgent, even one that is late, gives the window, restarts the count of
      data packets in flight, and unless it is a SYN keeps the session from expiring; nothing else does any of it. */
  lemma RefreshedIff(m: Machine, p: Packet, now: int, ok: bool)
    ensures var r := HandleTcp(m, p, now, ok).t;
            if p.urg || Closed(m.t.state) then
              r.time == m.t.time && r.sendWindow == m.t.sendWindow && r.unconfirmed == m.t.unconfirmed
            else
              && r.time == (if p.syn then m.t.time else now) && r.unconfirmed == 0
              && r.sendWindow == (p.window * Pow2(m.t.sendScale)) % TWO32
  {
    hide HandleTcp, Prepared, Waits, Pow2, CompareU32;
    PreparedIs(m, p, now);
    HandledIs(m, p, now, ok);
  }

  /** Data are queued exactly if the packet is heard, and only in front of nothing that was taken already. */
  lemma QueuedIff(m: Machine, p: Packet, now: int, ok: bool)
    ensures var r := HandleTcp(m, p, now, ok).t;
            r.forward == if Heard(m.t, p) && p.data != [] && CompareU32(p.seqno, m.t.remoteSeq) >= 0
                         then Insert(m.t.forward, p.seqno, p.data, p.psh)
                         else m.t.forward
  {
    hide HandleTcp, Prepared, Waits, Wrap, Shl32, CompareU32;
    PreparedIs(m, p, now);
    HandledIs(m, p, now, ok);
  }

  /** What the client has acknowledged moves to its number if that is current, or lies before the current one, but
      for one number, and behind the last. */
  lemma AckedIff(m: Machine, p: Packet, now: int, ok: bool)
    ensures var r := HandleTcp(m, p, now, ok).t;
            r.acked == if Confirms(m.t, p) || (Heard(m.t, p) && !p.rst && p.ack && Previous(m.t, p.ackno))
                       then p.ackno else m.t.acked
  {
    hide HandleTcp, Prepared, Waits, Wrap, Shl32, CompareU32;
    PreparedIs(m, p, now);
    HandledIs(m, p, now, ok);
  }

  /** The client's number moves on for the SYN that a reset acknowledges and for a FIN that is counted at once, and
      no packet moves the session's own. */
  lemma NumbersMove(m: Machine, p: Packet, now: int, ok: bool)
    ensures var r := HandleTcp(m, p, now, ok);
            && r.t.localSeq == m.t.localSeq && r.t.open == m.t.open
            && r.t.remoteSeq == (if (m.t.state.Listen? && Refused(m.t, p)) || CountsFin(m.t, p)
                                 then Wrap(m.t.remoteSeq + 1) else m.t.remoteSeq)
            && r.log.synIn == m.log.synIn + (if m.t.state.Listen? && Refused(m.t, p) then 1 else 0)
            && r.log.finIn == m.log.finIn + (if CountsFin(m.t, p) then 1 else 0)
  {
    hide HandleTcp, Prepared, Waits, Wrap, Shl32, CompareU32;
    PreparedIs(m, p, now);
    HandledIs(m, p, now, ok);
  }
}
