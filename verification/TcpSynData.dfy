/** Why data on the SYN has to be excluded.

    `handle_tcp` queues the data of a SYN at the initial sequence number, one before its true place. Once
    the SYN is counted that is behind the edge, and nothing is ever forwarded. But a session that is closing
    before it connected still forwards its queue, and then a segment one byte behind its true place follows
    on. */
module TcpSynData {
  import opened Words
  import opened Serial
  import opened Reassembly
  import opened TcpModel
  import opened TcpUpstream
  import TcpStall

  /** The client's stream: the data of its SYN and one byte more. */
  function StreamOf(p: Packet): seq<u8> {
    p.data + [0]
  }

  /** The last byte of the SYN's data, sent once more, and the one behind it. */
  function Overlap(p: Packet): Packet
    requires p.data != []
  {
    Packet(Wrap(p.seqno + |p.data|), 0, 0, StreamOf(p)[|p.data| - 1..], false, false, false, false, false, false)
  }

  function Reset(): Packet {
    Packet(0, 0, 0, [], false, false, false, true, false, false)
  }

  const ROOMY := Kernel(SEND_BUF_DEFAULT, 0)

  /** The client sends the overlapping segment and a reset, and the socket becomes writable. */
  function RepeatingRun(p: Packet): seq<Event>
    requires p.data != []
  {
    [FromTun(Overlap(p), 0, true),
     FromTun(Reset(), 0, true),
     FromSocket(SocketEvent(false, false, true, 0, ROOMY, [Sent(|p.data|), Sent(2)], ROOMY, RecvError(true),
                            UNFILTERED, true, true, true))]
  }

  function First(p: Packet): Segment {
    Segment(p.seqno, p.data, 0, p.psh)
  }

  function Second(p: Packet): Segment
    requires p.data != []
  {
    Segment(Overlap(p).seqno, Overlap(p).data, 0, false)
  }

  /** Nothing was forwarded yet, the socket is open, and q is queued. */
  predicate Waiting(m: Machine, p: Packet, s: State, q: seq<Segment>) {
    && m.t.state == s && m.t.open && m.t.remoteSeq == p.seqno == m.t.remoteStart
    && m.t.forward == q && m.log.accepted == []
  }

  lemma Registers(p: Packet, mss: u16, ws: u8, isn: u32, now: int, k: Kernel)
    requires p.data != []
    ensures Waiting(NewSession(p, mss, ws, isn, now, k), p, Listen, [First(p)])
  {
    hide ReceiveWindow, Shl32;
  }

  lemma SecondComesLater(p: Packet)
    requires p.data != []
    ensures CompareU32(Overlap(p).seqno, p.seqno) > 0 && CompareU32(p.seqno, Overlap(p).seqno) < 0
    ensures Delta(Overlap(p).seqno, Wrap(p.seqno + 1)) == |p.data| - 1
  {
    hide CompareU32;
    var n := |p.data|;
    DeltaOfWraps(p.seqno + n, p.seqno);
    DeltaOfWraps(p.seqno, p.seqno + n);
    DeltaOfWraps(p.seqno + n, p.seqno + 1);
    assert Wrap(p.seqno) == p.seqno;
    CompareIsSignOfDelta(Overlap(p).seqno, p.seqno);
    CompareIsSignOfDelta(p.seqno, Overlap(p).seqno);
  }

  lemma Queues(p: Packet)
    requires p.data != []
    ensures QueueTcp([First(p)], p.seqno, Overlap(p).seqno, Overlap(p).data, false) == [First(p), Second(p)]
  {
    hide CompareU32, Overlap;
    SecondComesLater(p);
    assert [First(p)][1..] == [];
    assert Insert([], Overlap(p).seqno, Overlap(p).data, false) == [Second(p)];
    assert [First(p)] + [Second(p)] == [First(p), Second(p)];
  }

  lemma Overlaps(m: Machine, p: Packet)
    requires p.data != [] && Waiting(m, p, Listen, [First(p)])
    ensures FromClient(m, Overlap(p), StreamOf(p))
    ensures Waiting(Step(m, RepeatingRun(p)[0]), p, Listen, [First(p), Second(p)])
  {
    hide Shl32, QueueTcp, Delta;
    SecondComesLater(p);
    Queues(p);
    assert Wrap(Base(m.t) + Forwarded(m)) == Wrap(p.seqno + 1);
  }

  lemma Closes(m: Machine, p: Packet)
    requires p.data != [] && Waiting(m, p, Listen, [First(p), Second(p)])
    ensures FromClient(m, Reset(), StreamOf(p))
    ensures Waiting(Step(m, RepeatingRun(p)[1]), p, Closing, [First(p), Second(p)])
  {
    hide Shl32;
  }

  /** A segment that the socket takes whole. */
  lemma DrainsWhole(s: Segment, rest: seq<Segment>, buffer: BufferSize, sends: seq<SendResult>)
    requires s.sent == 0 && |s.data| < buffer && sends != [] && sends[0] == Sent(|s.data|)
    ensures Drain([s] + rest, s.seqno, buffer, sends).accepted
            == s.data + Drain(rest, Wrap(s.seqno + |s.data|), buffer - |s.data|, sends[1..]).accepted
  {
    assert ([s] + rest)[1..] == rest;
    assert s.data[0..] == s.data;
  }

  lemma DrainsBoth(p: Packet)
    requires p.data != []
    ensures Drain([First(p), Second(p)], p.seqno, SEND_BUF_DEFAULT, [Sent(|p.data|), Sent(2)]).accepted
            == p.data + Overlap(p).data
  {
    hide Drain;
    assert [First(p)] + [Second(p)] == [First(p), Second(p)] && [Second(p)] + [] == [Second(p)];
    assert [Sent(|p.data|), Sent(2)][1..] == [Sent(2)] && [Sent(2)][1..] == [];
    DrainsWhole(First(p), [Second(p)], SEND_BUF_DEFAULT, [Sent(|p.data|), Sent(2)]);
    DrainsWhole(Second(p), [], SEND_BUF_DEFAULT - |p.data|, [Sent(2)]);
    DrainsNothing(Wrap(Second(p).seqno + 2), SEND_BUF_DEFAULT - |p.data| - 2);
    assert Overlap(p).data + [] == Overlap(p).data;
  }

  lemma DrainsNothing(remote: u32, buffer: BufferSize)
    ensures Drain([], remote, buffer, []).accepted == []
  {
  }

  lemma Repeats(m: Machine, p: Packet)
    requires p.data != [] && Waiting(m, p, Closing, [First(p), Second(p)])
    ensures Step(m, RepeatingRun(p)[2]).log.accepted == p.data + Overlap(p).data
  {
    hide Drain, Acknowledge, WriteRst;
    DrainsBoth(p);
    var e := RepeatingRun(p)[2].e;
    assert [] + (p.data + Overlap(p).data) == p.data + Overlap(p).data;
    var (m1, fwd) := Forward(m, e.before, e.sends, e.rstOk);
    ResetKeepsAccepted(AfterDrain(m, Drain(m.t.forward, m.t.remoteSeq, SEND_BUF_DEFAULT, e.sends)), e.rstOk);
    AcknowledgeKeepsAccepted(m1, fwd, e.after, e.now, e.ackOk);
  }

  lemma ResetKeepsAccepted(m: Machine, ok: bool)
    ensures WriteRst(m, ok).log.accepted == m.log.accepted && Closed(WriteRst(m, ok).t.state)
  {
    hide Outgoing;
  }

  lemma AcknowledgeKeepsAccepted(m: Machine, fwd: bool, k: Kernel, now: int, ok: bool)
    requires Closed(m.t.state)
    ensures var r := Acknowledge(m, fwd, k, now, ok); r.log.accepted == m.log.accepted && Closed(r.t.state)
  {
    hide ReceiveWindow, Outgoing;
  }

  /** After a SYN with data the socket can be sent a byte twice. */
  lemma SynDataRepeatsByte(p: Packet, mss: u16, ws: u8, isn: u32, now: int, k: Kernel)
    requires p.data != []
    ensures var m0 := NewSession(p, mss, ws, isn, now, k);
            && RunFromClient(m0, RepeatingRun(p), StreamOf(p))
            && Run(m0, RepeatingRun(p)).log.accepted == p.data + [p.data[|p.data| - 1], 0]
            && !(Run(m0, RepeatingRun(p)).log.accepted <= StreamOf(p))
  {
    hide Step, FromClient, NewSession, Waiting, Overlap;
    var m0, es := NewSession(p, mss, ws, isn, now, k), RepeatingRun(p);
    var m1 := Step(m0, es[0]);
    var m2 := Step(m1, es[1]);
    var m3 := Step(m2, es[2]);
    Registers(p, mss, ws, isn, now, k);
    Overlaps(m0, p);
    Closes(m1, p);
    Repeats(m2, p);
    OverlapData(p);
    assert es[1..][1..] == [es[2]] && es[1..][0] == es[1] && [es[2]][1..] == [];
    assert Run(m3, []) == m3 && RunFromClient(m3, [], StreamOf(p));
    assert Run(m2, [es[2]]) == m3 && RunFromClient(m2, [es[2]], StreamOf(p));
    assert Run(m1, es[1..]) == m3 && RunFromClient(m1, es[1..], StreamOf(p));
  }

  lemma OverlapData(p: Packet)
    requires p.data != []
    ensures Overlap(p).data == [p.data[|p.data| - 1], 0]
  {
  }

  /** Whatever the client's stream and the run, the socket gets a prefix of the stream. */
  ghost predicate AlwaysPrefix(m: Machine) {
    forall es, stream :: RunFromClient(m, es, stream) ==> Run(m, es).log.accepted <= stream
  }

  /** The stream is safe in every run if and only if the SYN carries no data. */
  lemma SafeIffNoSynData(p: Packet, mss: u16, ws: u8, isn: u32, now: int, k: Kernel)
    ensures AlwaysPrefix(NewSession(p, mss, ws, isn, now, k)) <==> p.data == []
  {
    hide NewSession, Run, RunFromClient;
    var m := NewSession(p, mss, ws, isn, now, k);
    if p.data == [] {
      forall es, stream | RunFromClient(m, es, stream)
        ensures Run(m, es).log.accepted <= stream
      {
        UpstreamSafety(p, mss, ws, isn, now, k, es, stream);
      }
    } else {
      SynDataRepeatsByte(p, mss, ws, isn, now, k);
      var es, stream := RepeatingRun(p), StreamOf(p);
      assert RunFromClient(m, es, stream) && !(Run(m, es).log.accepted <= stream);
    }
  }

  // ---- What becomes of the data otherwise ----

  /** The session is not connected, and the data of its SYN is at the head of the queue. */
  predicate OnSyn(m: Machine, stream: seq<u8>) {
    && m.t.state.Listen? && m.t.open && m.t.remoteSeq == m.t.remoteStart
    && m.log.accepted == [] && m.log.synIn == 0 && m.log.finIn == 0
    && m.t.forward != [] && m.t.forward[0].seqno == m.t.remoteStart && m.t.forward[0].sent == 0
    && Held(m.t.forward, Wrap(m.t.remoteStart + 1), 0, stream)
  }

  /** The SYN is counted, and its data is behind the edge. */
  predicate LeftBehind(m: Machine, stream: seq<u8>) {
    Upstream(m, stream) && TcpStall.Behind(m) && m.log.accepted == []
  }

  predicate ClosedUnconnected(m: Machine) {
    Closed(m.t.state) && m.log.synIn == 0
  }

  predicate NeverForwards(m: Machine, stream: seq<u8>) {
    OnSyn(m, stream) || LeftBehind(m, stream) || ClosedUnconnected(m)
  }

  lemma StartsOnSyn(p: Packet, mss: u16, ws: u8, isn: u32, now: int, k: Kernel, stream: seq<u8>)
    requires p.data != []
    ensures OnSyn(NewSession(p, mss, ws, isn, now, k), stream)
  {
    hide ReceiveWindow, Shl32;
    DeltaOfWraps(p.seqno, p.seqno + 1);
    assert Wrap(p.seqno) == p.seqno;
  }

  /** b is as a, apart from what the queue and its counts do not depend on. */
  predicate SameOnSyn(a: Machine, b: Machine) {
    SameStream(a, b) && b.t.state == a.t.state && b.t.open == a.t.open
  }

  lemma StaysOnSyn(a: Machine, b: Machine, stream: seq<u8>)
    requires OnSyn(a, stream) && SameOnSyn(a, b)
    ensures OnSyn(b, stream)
  {
    hide Held;
  }

  /** However the SYN comes to be counted, its data is left behind. */
  lemma CountedLeavesBehind(a: Machine, b: Machine, stream: seq<u8>)
    requires OnSyn(a, stream)
    requires b.t.forward == a.t.forward && b.t.remoteStart == a.t.remoteStart && b.log.accepted == []
    requires b.t.remoteSeq == Wrap(a.t.remoteSeq + 1) && b.log.synIn == 1 && b.log.finIn == 0
    requires (b.t.state.SynRecv? || b.t.state.Closing?) && b.t.open
    ensures LeftBehind(b, stream)
  {
    hide Held;
    DeltaOfWraps(b.t.remoteStart, b.t.remoteStart + 1);
    assert Wrap(b.t.remoteStart) == b.t.remoteStart;
    assert Base(b.t) + Forwarded(b) == b.t.remoteStart + 1;
  }

  lemma ResetLeavesBehind(m: Machine, ok: bool, stream: seq<u8>)
    requires OnSyn(m, stream)
    ensures LeftBehind(WriteRst(m, ok), stream)
  {
    hide Held, Outgoing, LeftBehind;
    CountedLeavesBehind(m, WriteRst(m, ok), stream);
  }

  lemma ConnectedLeavesBehind(m: Machine, now: int, ok: bool, stream: seq<u8>)
    requires OnSyn(m, stream)
    ensures LeftBehind(Connected(m, now, ok), stream)
  {
    hide Held, Outgoing, LeftBehind;
    CountedLeavesBehind(m, Connected(m, now, ok), stream);
  }

  lemma EnqueueOnSyn(m: Machine, p: Packet, stream: seq<u8>)
    requires OnSyn(m, stream) && FromClient(m, p, stream)
    ensures OnSyn(Enqueue(m, p), stream)
  {
    if p.data != [] {
      hide Held, Insert, Matches, CompareU32;
      var q := m.t.forward;
      var start: int := m.t.remoteStart;
      assert Edge(m) == Wrap(start + 1) && Forwarded(m) == 0;
      DeltaShift(p.seqno, start + 1, -1);
      assert Wrap(start + 1 - 1) == start;
      CompareIsSignOfDelta(p.seqno, start);
      DeltaOfWraps(start, start + 1);
      CompareInWindow(start, p.seqno, Wrap(start + 1));
      QueueTcpHolds(q, p.seqno, p.data, p.psh, Wrap(start + 1), 0, stream);
      TcpStall.FirstInserted(q, p);
    }
  }

  lemma FlagsOnSyn(m: Machine, p: Packet, ok: bool, stream: seq<u8>)
    requires OnSyn(m, stream)
    ensures NeverForwards(TakeFlags(m, p, ok), stream)
  {
    hide Held, WriteRst, CompareU32, LeftBehind;
    ResetLeavesBehind(m, ok, stream);
  }

  lemma PacketOnSyn(m: Machine, p: Packet, now: int, ok: bool, stream: seq<u8>)
    requires OnSyn(m, stream) && FromClient(m, p, stream)
    ensures NeverForwards(HandleTcp(m, p, now, ok), stream)
  {
    hide Held, TakeFlags, Shl32, NeverForwards, QueueTcp;
    Never(m, stream);
    if !p.urg {
      var m1 := Refresh(m, p, now);
      StaysOnSyn(m, m1, stream);
      EnqueueOnSyn(m1, p, stream);
      FlagsOnSyn(Enqueue(m1, p), p, ok, stream);
    }
  }

  lemma Never(m: Machine, stream: seq<u8>)
    requires OnSyn(m, stream)
    ensures NeverForwards(m, stream)
  {
  }

  lemma SocketOnSyn(m: Machine, e: SocketEvent, stream: seq<u8>)
    requires OnSyn(m, stream)
    ensures NeverForwards(CheckTcpSocket(m, e), stream)
  {
    hide Held, WriteRst, Connected, LeftBehind, Transfer;
    var m1 := m.(t := m.t.(time := e.now));
    StaysOnSyn(m, m1, stream);
    ResetLeavesBehind(m1, e.rstOk, stream);
    ConnectedLeavesBehind(m, e.now, e.ackOk, stream);
  }

  lemma StepOnSyn(m: Machine, e: Event, stream: seq<u8>)
    requires OnSyn(m, stream) && (e.FromTun? ==> FromClient(m, e.p, stream))
    ensures NeverForwards(Step(m, e), stream)
  {
    hide Held, WriteRst, LeftBehind, HandleTcp, CheckTcpSocket, FromClient;
    match e
    case FromTun(p, now, ok) => PacketOnSyn(m, p, now, ok, stream);
    case FromSocket(ev) => SocketOnSyn(m, ev, stream);
    case Monitor(ms, k, ctlOk, ok) =>
    case Sweep(now, timeout, ok) =>
    case Disallow(ok) => ResetLeavesBehind(m, ok, stream);
  }

  lemma ResetStaysUnconnected(m: Machine, ok: bool)
    requires ClosedUnconnected(m)
    ensures ClosedUnconnected(WriteRst(m, ok))
  {
    hide Outgoing;
  }

  lemma StepUnconnected(m: Machine, e: Event)
    requires ClosedUnconnected(m)
    ensures ClosedUnconnected(Step(m, e))
  {
    hide WriteRst, SendWindow, KeepAlive, TakeFlags, QueueTcp, Shl32, CheckTcpSocket;
    match e
    case FromTun(p, now, ok) => ResetStaysUnconnected(m, ok);
    case FromSocket(ev) => SocketUnconnected(m, ev);
    case Monitor(ms, k, ctlOk, ok) =>
    case Sweep(now, timeout, ok) =>
    case Disallow(ok) =>
  }

  lemma SocketUnconnected(m: Machine, e: SocketEvent)
    requires ClosedUnconnected(m)
    ensures ClosedUnconnected(CheckTcpSocket(m, e))
  {
    hide WriteRst, Forward, Acknowledge, Fetch, SendWindow;
    ResetStaysUnconnected(m.(t := m.t.(time := e.now)), e.rstOk);
    ForwardUnconnected(m, e.before, e.sends, e.rstOk);
    var (m1, fwd) := if e.writable then Forward(m, e.before, e.sends, e.rstOk) else (m, false);
    AcknowledgeUnconnected(m1, fwd, e.after, e.now, e.ackOk);
  }

  lemma ForwardUnconnected(m: Machine, k: Kernel, sends: seq<SendResult>, ok: bool)
    requires ClosedUnconnected(m)
    ensures ClosedUnconnected(Forward(m, k, sends, ok).0)
  {
    hide WriteRst, Drain;
    ResetStaysUnconnected(AfterDrain(m, Drain(m.t.forward, m.t.remoteSeq, ReceiveBuffer(m.t.open, k), sends)), ok);
  }

  lemma AcknowledgeUnconnected(m: Machine, fwd: bool, k: Kernel, now: int, ok: bool)
    requires ClosedUnconnected(m)
    ensures ClosedUnconnected(Acknowledge(m, fwd, k, now, ok))
  {
    hide ReceiveWindow, Outgoing;
  }

  lemma {:induction false} RunNeverForwards(m: Machine, es: seq<Event>, stream: seq<u8>)
    requires NeverForwards(m, stream) && RunFromClient(m, es, stream)
    ensures NeverForwards(Run(m, es), stream)
    decreases |es|
  {
    hide Step, OnSyn, Upstream, TcpStall.Behind, ClosedUnconnected, FromClient;
    if es != [] {
      if OnSyn(m, stream) {
        StepOnSyn(m, es[0], stream);
      } else if LeftBehind(m, stream) {
        TcpStall.BehindStep(m, es[0], stream);
        StepUpstream(m, es[0], stream);
      } else {
        StepUnconnected(m, es[0]);
      }
      RunNeverForwards(Step(m, es[0]), es[1..], stream);
    }
  }

  /** A session whose SYN carried data forwards nothing at all, in any run of its client's stream, except in
      the runs that close it before its SYN is counted. */
  lemma SynDataForwardsNothing(p: Packet, mss: u16, ws: u8, isn: u32, now: int, k: Kernel, es: seq<Event>,
                               stream: seq<u8>)
    requires p.data != [] && RunFromClient(NewSession(p, mss, ws, isn, now, k), es, stream)
    ensures var m := Run(NewSession(p, mss, ws, isn, now, k), es);
            m.log.synIn == 1 || !Closed(m.t.state) ==> m.log.accepted == []
  {
    hide NewSession, Run, Held, RunFromClient;
    var m0 := NewSession(p, mss, ws, isn, now, k);
    StartsOnSyn(p, mss, ws, isn, now, k, stream);
    Never(m0, stream);
    RunNeverForwards(m0, es, stream);
  }
}
