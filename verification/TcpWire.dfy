/** Whether the packets of a session are valid on the wire.

    What a session reads is bounded by the MSS of the client, and that is taken as it is. Every packet of every
    run is valid if and only if the largest segment fits an IP packet. */
module TcpWire {
  import opened Wrappers
  import opened Words
  import opened Serial
  import opened Reassembly
  import opened TcpModel
  import opened PacketCodec
  import opened TcpExamples

  /** p carries at most an MSS of data, and a SYN none. */
  predicate Small(p: Packet, mss: u16) {
    |p.data| <= mss && (p.syn ==> p.data == [])
  }

  predicate AllSmall(m: Machine) {
    forall p <- m.log.out :: Small(p, m.t.mss)
  }

  /** b keeps the MSS of a, and what it wrote besides is small. */
  predicate AddsSmall(a: Machine, b: Machine) {
    b.t.mss == a.t.mss && (AllSmall(a) ==> AllSmall(b))
  }

  lemma WriteAdds(m: Machine, data: Payload, syn: bool, fin: bool, ok: bool)
    requires |data| <= m.t.mss && (syn ==> data == [])
    ensures AddsSmall(m, WriteOrClose(m, data, syn, fin, ok))
  {
  }

  lemma WriteRstAdds(m: Machine, ok: bool)
    ensures AddsSmall(m, WriteRst(m, ok))
  {
  }

  lemma TakeFinAdds(m: Machine, ok: bool)
    ensures AddsSmall(m, TakeFin(m, ok))
  {
    hide WriteOrClose;
    WriteAdds(CountFin(m), [], false, false, ok);
  }

  lemma TakeFlagsAdds(m: Machine, p: Packet, ok: bool)
    ensures AddsSmall(m, TakeFlags(m, p, ok))
  {
    hide WriteRst, TakeFin, CompareU32;
    TakeFinAdds(m, ok);
    WriteRstAdds(m, ok);
  }

  lemma HandleTcpAdds(m: Machine, p: Packet, now: int, ok: bool)
    ensures AddsSmall(m, HandleTcp(m, p, now, ok))
  {
    hide WriteRst, QueueTcp, Shl32, TakeFlags;
    WriteRstAdds(m, ok);
    WriteRstAdds(Refresh(m, p, now), ok);
    TakeFlagsAdds(Enqueue(Refresh(m, p, now), p), p, ok);
  }

  lemma ForwardAdds(m: Machine, k: Kernel, sends: seq<SendResult>, ok: bool)
    ensures AddsSmall(m, Forward(m, k, sends, ok).0)
  {
    hide Drain, WriteRst;
    WriteRstAdds(AfterDrain(m, Drain(m.t.forward, m.t.remoteSeq, ReceiveBuffer(m.t.open, k), sends)), ok);
  }

  lemma AcknowledgeAdds(m: Machine, fwd: bool, k: Kernel, now: int, ok: bool)
    ensures AddsSmall(m, Acknowledge(m, fwd, k, now, ok))
  {
    hide WriteOrClose, ReceiveWindow;
    var m1 := ConfirmFin(m.(t := m.t.(recvWindow := ReceiveWindow(m.t, k))), fwd);
    WriteAdds(m1, [], false, false, ok);
  }

  lemma TakeEofAdds(m: Machine, ok: bool)
    ensures AddsSmall(m, TakeEof(m, ok))
  {
    hide WriteOrClose, WriteRst;
    WriteAdds(m, [], false, true, ok);
    WriteRstAdds(m, ok);
  }

  lemma TakeBytesAdds(m: Machine, b: Payload, shown: Payload, ok: bool)
    requires |shown| <= m.t.mss
    ensures AddsSmall(m, TakeBytes(m, b, shown, ok))
  {
    hide WriteOrClose;
    var m1 := m.(t := m.t.(received := m.t.received + |b|),
                 log := m.log.(fetched := m.log.fetched + b, shown := m.log.shown + shown));
    WriteAdds(m1, shown, false, false, ok);
  }

  lemma FetchAdds(m: Machine, recv: RecvResult, filter: Filter, now: int, ok: bool)
    ensures AddsSmall(m, Fetch(m, recv, filter, now, ok))
  {
    hide SendWindow, TakeEof, TakeBytes, Shown, WriteRst, AddsSmall;
    var m1 := m.(t := m.t.(time := now));
    TakeEofAdds(m1, ok);
    WriteRstAdds(m1, ok);
    OnlyTime(m, m1, Fetch(m, recv, filter, now, ok));
    if recv.Bytes? {
      var size := if SendWindow(m.t) > m.t.mss then m.t.mss else SendWindow(m.t);
      var b := if |recv.data| <= size then recv.data else recv.data[..size];
      TakeBytesAdds(m1, b, Shown(b, filter), ok);
    }
  }

  lemma OnlyTime(a: Machine, b: Machine, c: Machine)
    requires b == a.(t := a.t.(time := b.t.time))
    ensures AddsSmall(b, c) ==> AddsSmall(a, c)
    ensures AddsSmall(a, b)
  {
  }

  lemma Composed(a: Machine, b: Machine, c: Machine)
    requires AddsSmall(a, b) && AddsSmall(b, c)
    ensures AddsSmall(a, c)
  {
  }

  lemma CheckTcpSocketAdds(m: Machine, e: SocketEvent)
    ensures AddsSmall(m, CheckTcpSocket(m, e))
  {
    hide AddsSmall, Forward, Acknowledge, Fetch, SendWindow, WriteRst, Connected;
    var m0 := m.(t := m.t.(time := e.now));
    WriteRstAdds(m0, e.rstOk);
    OnlyTime(m, m0, WriteRst(m0, e.rstOk));
    ConnectedAdds(m, e.now, e.ackOk);
    var (m1, fwd) := if e.writable then Forward(m, e.before, e.sends, e.rstOk) else (m, false);
    var m2 := Acknowledge(m1, fwd, e.after, e.now, e.ackOk);
    ForwardAdds(m, e.before, e.sends, e.rstOk);
    AcknowledgeAdds(m1, fwd, e.after, e.now, e.ackOk);
    FetchAdds(m2, e.recv, e.filter, e.now, e.dataOk);
    OnlyTime(m, m, m);
    Composed(m, m1, m2);
    Composed(m, m2, Fetch(m2, e.recv, e.filter, e.now, e.dataOk));
  }

  lemma ConnectedAdds(m: Machine, now: int, ok: bool)
    ensures AddsSmall(m, Connected(m, now, ok))
  {
    hide WriteOrClose;
    WriteAdds(CountSyn(m), [], true, false, ok);
  }

  lemma MonitorAdds(m: Machine, ms: int, k: Kernel, ctlOk: bool, ok: bool)
    ensures AddsSmall(m, MonitorTcp(m, ms, k, ctlOk, ok).0)
  {
    hide SendWindow, CanForward, WriteOrClose;
    var m1 := m.(t := m.t.(lastKeepAlive := ms, remoteSeq := Wrap(m.t.remoteSeq - 1)));
    WriteAdds(m1, [], false, false, ok);
  }

  lemma StepAdds(m: Machine, e: Event)
    ensures AddsSmall(m, Step(m, e))
  {
    hide AddsSmall, HandleTcp, CheckTcpSocket, MonitorTcp, CheckTcpSession, DisallowTcp;
    OnlyTime(m, m, m);
    match e
    case FromTun(p, now, ok) => HandleTcpAdds(m, p, now, ok);
    case FromSocket(ev) => CheckTcpSocketAdds(m, ev);
    case Monitor(ms, k, ctlOk, ok) => MonitorAdds(m, ms, k, ctlOk, ok);
    case Sweep(now, timeout, ok) => CheckTcpSessionAdds(m, now, timeout, ok);
    case Disallow(ok) => DisallowAdds(m, ok);
  }

  lemma CheckTcpSessionAdds(m: Machine, now: int, timeout: int, ok: bool)
    ensures AddsSmall(m, CheckTcpSession(m, now, timeout, ok).0)
  {
    hide WriteRst;
    WriteRstAdds(m, ok);
  }

  lemma DisallowAdds(m: Machine, ok: bool)
    ensures AddsSmall(m, DisallowTcp(m, ok))
  {
    hide WriteRst;
    WriteRstAdds(m, ok);
  }

  lemma {:induction false} RunAdds(m: Machine, es: seq<Event>)
    ensures AddsSmall(m, Run(m, es))
    decreases |es|
  {
    hide Step, AddsSmall;
    if es == [] {
      OnlyTime(m, m, m);
    } else {
      StepAdds(m, es[0]);
      RunAdds(Step(m, es[0]), es[1..]);
      Composed(m, Step(m, es[0]), Run(Step(m, es[0]), es[1..]));
    }
  }

  // ---- On the wire ----

  /** p is valid at the receiver, and over IPv4 it decodes to itself. */
  predicate Arrives(c: Conn, p: Packet, scale: u8)
    requires IsIp4(c) || IsIp6(c)
  {
    if IsIp4(c) then
      var o := TcpOptions(p, scale, false);
      && Verifies4(Tcp4Packet(c, p, scale))
      && Decode4(Tcp4Packet(c, p, scale)) == Some(Decoded(c.daddr, c.saddr, c.dest, c.source, p, |o|, o + p.data))
    else Verifies6(Tcp6Packet(c, p, scale))
  }

  /** The largest MSS whose segments fit a packet of the version. */
  function LargestMss(c: Conn): u16 {
    if IsIp4(c) then 0xFFFF - 40 else 0xFFFF - 20
  }

  lemma SmallArrives(c: Conn, p: Packet, scale: u8, mss: u16)
    requires IsIp4(c) || IsIp6(c)
    requires Small(p, mss) && mss <= LargestMss(c)
    ensures Arrives(c, p, scale)
  {
    hide Verifies4, Verifies6, Tcp4Packet, Tcp6Packet, Decode4;
    EmittedPacketsVerify(c, p, scale, []);
    if IsIp4(c) {
      PrintParseRoundTrip(c, p, scale);
    }
  }

  lemma LargeIsInvalid(c: Conn, p: Packet, scale: u8)
    requires IsIp4(c) || IsIp6(c)
    requires |p.data| > LargestMss(c)
    ensures !Arrives(c, p, scale)
  {
    hide Verifies4, Verifies6, Tcp4Packet, Tcp6Packet, Decode4;
    EmittedPacketsVerify(c, p, scale, []);
  }

  predicate AllArrive(c: Conn, m: Machine)
    requires IsIp4(c) || IsIp6(c)
  {
    forall p <- m.log.out :: Arrives(c, p, m.t.recvScale)
  }

  /** With that MSS every packet of every run arrives. */
  ghost predicate AlwaysArrive(c: Conn, mss: u16)
    requires IsIp4(c) || IsIp6(c)
  {
    forall s, ws, isn, start, k, es :: AllArrive(c, Run(NewSession(s, mss, ws, isn, start, k), es))
  }

  lemma SmallRunArrives(c: Conn, s: Packet, mss: u16, ws: u8, isn: u32, start: int, k: Kernel, es: seq<Event>)
    requires (IsIp4(c) || IsIp6(c)) && mss <= LargestMss(c)
    ensures AllArrive(c, Run(NewSession(s, mss, ws, isn, start, k), es))
  {
    hide Run, Arrives, LargestMss, Small;
    var m0 := NewSession(s, mss, ws, isn, start, k);
    RunAdds(m0, es);
    var m := Run(m0, es);
    forall p | p in m.log.out ensures Arrives(c, p, m.t.recvScale) {
      SmallArrives(c, p, m.t.recvScale, mss);
    }
  }

  /** A client with a large window, to which one segment is sent. */
  function LargeRun(): seq<Event> {
    [Writable([]), Greeting(101), Readable(Block())]
  }

  function Begin(mss: u16): Machine {
    NewSession(SYN, mss, 1, 100, 0, QUIET)
  }

  predicate Stands(m: Machine, s: State, mss: u16, acked: u32) {
    && m.t.state == s && m.t.open && m.t.localSeq == 101 && m.t.acked == acked && m.t.mss == mss
    && m.t.forward == [] && m.t.sendScale == 1
  }

  lemma Connects(mss: u16)
    ensures Stands(Step(Begin(mss), Writable([])), SynRecv, mss, 0)
  {
    hide ReceiveWindow, Outgoing, Shl32;
  }

  lemma Establishes(m: Machine, mss: u16)
    requires Stands(m, SynRecv, mss, 0)
    ensures var r := Step(m, Greeting(101));
            Stands(r, Established, mss, 101) && r.t.sendWindow == 0x1_FFFE && r.t.unconfirmed == 0
  {
    hide Shl32;
    TwiceTheWindow();
  }

  lemma TwiceTheWindow()
    ensures Shl32(0xFFFF, 1) == 0x1_FFFE
  {
    assert Pow2(1) == 2;
  }

  lemma RoomForAll(t: Tcp)
    requires t.localSeq == t.acked == 101 && t.sendWindow == 0x1_FFFE && t.unconfirmed == 0
    ensures SendWindow(t) > 0xFFFF
  {
  }

  lemma ReadsSegment(m: Machine, mss: u16)
    requires Stands(m, Established, mss, 101) && m.t.sendWindow == 0x1_FFFE && m.t.unconfirmed == 0 && mss > 0
    ensures var out := Step(m, Readable(Block())).log.out;
            out != [] && |out[|out| - 1].data| == mss
  {
    hide SendWindow, Outgoing, WriteRst, TakeEof, Shown, TakeBytes, Acknowledge, Blank;
    RoomForAll(m.t);
    var a := Acknowledge(m, false, QUIET, 0, true);
    NothingToAcknowledge(m);
    RoomForAll(a.t);
    var b := if |Block()| <= mss then Block() else Block()[..mss];
    SegmentWritten(a.(t := a.t.(time := 0)), b, Shown(b, UNFILTERED));
  }

  lemma SegmentWritten(m: Machine, b: Payload, shown: Payload)
    ensures var out := TakeBytes(m, b, shown, true).log.out;
            out != [] && out[|out| - 1].data == shown
  {
  }

  /** Every packet of every run arrives if and only if the MSS fits; under a larger one the run above writes a
      segment that does not. */
  lemma ArriveIffMssFits(c: Conn, mss: u16)
    requires IsIp4(c) || IsIp6(c)
    ensures AlwaysArrive(c, mss) <==> mss <= LargestMss(c)
  {
    hide NewSession, Run, AllArrive, LargestMss;
    if mss <= LargestMss(c) {
      forall s, ws, isn, start, k, es ensures AllArrive(c, Run(NewSession(s, mss, ws, isn, start, k), es)) {
        SmallRunArrives(c, s, mss, ws, isn, start, k, es);
      }
    } else {
      LargeRunFails(c, mss);
    }
  }

  lemma LargeRunFails(c: Conn, mss: u16)
    requires (IsIp4(c) || IsIp6(c)) && mss > LargestMss(c)
    ensures !AllArrive(c, Run(Begin(mss), LargeRun()))
  {
    hide Step, Run, Begin, Arrives, Stands, Blank;
    var m1 := Step(Begin(mss), Writable([]));
    var m2 := Step(m1, Greeting(101));
    var m3 := Step(m2, Readable(Block()));
    Connects(mss);
    Establishes(m1, mss);
    ReadsSegment(m2, mss);
    RunOfThree(Begin(mss), Writable([]), Greeting(101), Readable(Block()));
    var p := m3.log.out[|m3.log.out| - 1];
    assert p in m3.log.out;
    LargeIsInvalid(c, p, m3.t.recvScale);
  }
}
