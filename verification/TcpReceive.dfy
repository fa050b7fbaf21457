/** The receive window offered to the client, and the room the forwarding loop uses. */
module TcpReceive {
  import opened Words
  import opened Reassembly
  import opened TcpModel

  /** One pass of the forwarding loop sends strictly less than the room it found, so the unsigned
      `buffer_size -= sent` never wraps. */
  lemma {:induction false} DrainBelowBuffer(q: seq<Segment>, remote: u32, buffer: BufferSize, sends: seq<SendResult>)
    ensures var d := Drain(q, remote, buffer, sends); d.accepted != [] ==> |d.accepted| < buffer
    decreases |q|
  {
    if q != [] && q[0].seqno == remote && Fits(q[0], buffer) && sends != [] && sends[0].Sent? {
      var n := Taken(q[0], sends[0].n);
      if q[0].sent + n == |q[0].data| {
        DrainBelowBuffer(q[1..], Wrap(q[0].seqno + |q[0].data|), buffer - n, sends[1..]);
      }
    }
  }

  /** No segment has more sent than it holds. */
  predicate SentWithin(q: seq<Segment>) {
    forall s <- q :: s.sent <= |s.data|
  }

  lemma {:induction false} ToForwardNonNegative(q: seq<Segment>)
    requires SentWithin(q)
    ensures ToForward(q) >= 0
  {
    if q != [] {
      assert q[0] in q;
      ToForwardNonNegative(q[1..]);
    }
  }

  /** A positive window leaves room in the socket for it and for all that is queued already. */
  lemma WindowAndQueueFit(t: Tcp, k: Kernel)
    requires SentWithin(t.forward) && ToForward(t.forward) < TWO32
    ensures ReceiveWindow(t, k) > 0 ==> ReceiveWindow(t, k) + ToForward(t.forward) <= ReceiveBuffer(t.open, k)
    ensures ReceiveBuffer(t.open, k) <= ToForward(t.forward) ==> ReceiveWindow(t, k) == 0
  {
    ToForwardNonNegative(t.forward);
  }

  /** The queued bytes that the socket does not have yet. */
  function NotSent(q: seq<Segment>): seq<u8>
    requires SentWithin(q)
  {
    if q == [] then []
    else
      assert q[0] in q;
      q[0].data[q[0].sent..] + NotSent(q[1..])
  }

  lemma {:induction false} ToForwardCounts(q: seq<Segment>)
    requires SentWithin(q)
    ensures ToForward(q) == |NotSent(q)|
  {
    if q != [] {
      assert q[0] in q;
      ToForwardCounts(q[1..]);
    }
  }

  function Least(a: nat, b: nat): nat {
    if a < b then a else b
  }

  /** The window is exactly what the queued bytes leave of the free space in the socket, of which the client can be told
      no more than 65535 units of its scale. The free space is what the kernel has not sent yet of its buffer, of which
      160 KiB are taken for granted when it does not tell. */
  lemma WindowIs(t: Tcp, k: Kernel)
    requires t.open && SentWithin(t.forward) && |NotSent(t.forward)| < TWO32 && t.recvScale <= 16
    ensures var size := if k.sendbuf == 0 then 163840 else k.sendbuf;
            var room := Least(if k.unsent < size then size - k.unsent else 0, 0xFFFF * Pow2(t.recvScale));
            ReceiveWindow(t, k) == if |NotSent(t.forward)| < room then room - |NotSent(t.forward)| else 0
  {
    hide NotSent, Pow2;
    ToForwardCounts(t.forward);
    Pow2Monotone(t.recvScale, 16);
    SixteenBits(t.recvScale);
  }

  lemma SixteenBits(s: nat)
    requires s <= 16 && Pow2(s) <= Pow2(16)
    ensures 0xFFFF * Pow2(s) < TWO32
  {
    assert Pow2(8) == 256;
    assert Pow2(16) == 65536;
  }

  /** The window fits in the 16 bits of the header once it is scaled down. */
  predicate WindowFits(t: Tcp) {
    t.recvWindow <= 0xFFFF * Pow2(t.recvScale)
  }

  lemma Divided(x: nat, p: nat)
    requires 0 < p && x <= 0xFFFF * p
    ensures x / p <= 0xFFFF
    ensures x / p * p <= x < (x / p + 1) * p
  {
    var q := x / p;
    assert x == q * p + x % p;
    assert (q + 1) * p == q * p + p;
  }

  /** No bit of the window is lost in a header, and the client never reads more than was meant. */
  lemma HeaderWindowExact(t: Tcp, data: Payload, syn: bool, ack: bool, fin: bool, rst: bool)
    requires WindowFits(t)
    ensures var w := Outgoing(t, data, syn, ack, fin, rst).window;
            w * Pow2(t.recvScale) <= t.recvWindow < (w + 1) * Pow2(t.recvScale)
  {
    hide Pow2, Outgoing;
    var p := Pow2(t.recvScale);
    Divided(t.recvWindow, p);
    HeaderWindow(t, data, syn, ack, fin, rst);
    Unchanged16(t.recvWindow / p);
  }

  lemma HeaderWindow(t: Tcp, data: Payload, syn: bool, ack: bool, fin: bool, rst: bool)
    ensures Outgoing(t, data, syn, ack, fin, rst).window == (t.recvWindow / Pow2(t.recvScale)) % TWO16
  {
  }

  lemma Unchanged16(x: int)
    requires 0 <= x <= 0xFFFF
    ensures x % TWO16 == x
  {
  }

  lemma WindowComputed(t: Tcp, k: Kernel)
    ensures WindowFits(t.(recvWindow := ReceiveWindow(t, k)))
  {
    hide Pow2;
    WrapBelow(0xFFFF * Pow2(t.recvScale));
  }

  lemma WrapBelow(x: nat)
    ensures Wrap(x) <= x
  {
  }

  predicate SameWindow(a: Tcp, b: Tcp) {
    b.recvScale == a.recvScale && b.recvWindow == a.recvWindow
  }

  lemma TakeFlagsWindow(m: Machine, p: Packet, ok: bool)
    ensures SameWindow(m.t, TakeFlags(m, p, ok).t)
  {
    hide Outgoing, Wrap;
  }

  lemma HandleTcpWindow(m: Machine, p: Packet, now: int, ok: bool)
    ensures SameWindow(m.t, HandleTcp(m, p, now, ok).t)
  {
    hide Outgoing, TakeFlags, QueueTcp, Shl32;
    TakeFlagsWindow(Enqueue(Refresh(m, p, now), p), p, ok);
  }

  lemma ForwardWindow(m: Machine, k: Kernel, sends: seq<SendResult>, ok: bool)
    ensures SameWindow(m.t, Forward(m, k, sends, ok).0.t)
  {
    hide Outgoing, Drain;
  }

  lemma AcknowledgeWindow(m: Machine, fwd: bool, k: Kernel, now: int, ok: bool)
    requires WindowFits(m.t)
    ensures WindowFits(Acknowledge(m, fwd, k, now, ok).t)
  {
    hide Outgoing, ReceiveWindow;
    WindowComputed(m.t, k);
  }

  lemma FetchWindow(m: Machine, recv: RecvResult, filter: Filter, now: int, ok: bool)
    ensures SameWindow(m.t, Fetch(m, recv, filter, now, ok).t)
  {
    hide Outgoing, SendWindow, WriteRst, TakeEof, TakeBytes, Shown;
    CloseWindow(m.(t := m.t.(time := now)), ok);
    if recv.Bytes? {
      var size := if SendWindow(m.t) > m.t.mss then m.t.mss else SendWindow(m.t);
      var b := if |recv.data| <= size then recv.data else recv.data[..size];
      BytesWindow(m.(t := m.t.(time := now)), b, Shown(b, filter), ok);
    }
  }

  lemma CloseWindow(m: Machine, ok: bool)
    ensures SameWindow(m.t, WriteRst(m, ok).t) && SameWindow(m.t, TakeEof(m, ok).t)
  {
    hide Outgoing;
  }

  lemma BytesWindow(m: Machine, b: Payload, shown: Payload, ok: bool)
    ensures SameWindow(m.t, TakeBytes(m, b, shown, ok).t)
  {
    hide Outgoing;
  }

  lemma CheckTcpSocketWindow(m: Machine, e: SocketEvent)
    requires WindowFits(m.t)
    ensures WindowFits(CheckTcpSocket(m, e).t)
  {
    hide Forward, Acknowledge, Fetch, SendWindow, WriteRst, Outgoing;
    CloseWindow(m.(t := m.t.(time := e.now)), e.rstOk);
    if !e.err && !m.t.state.Listen? {
      var (m1, fwd) := if e.writable then Forward(m, e.before, e.sends, e.rstOk) else (m, false);
      var m2 := Acknowledge(m1, fwd, e.after, e.now, e.ackOk);
      ForwardWindow(m, e.before, e.sends, e.rstOk);
      AcknowledgeWindow(m1, fwd, e.after, e.now, e.ackOk);
      FetchWindow(m2, e.recv, e.filter, e.now, e.dataOk);
    }
  }

  lemma OthersWindow(m: Machine, e: Event)
    requires e.Monitor? || e.Sweep? || e.Disallow?
    ensures SameWindow(m.t, Step(m, e).t)
  {
    hide MonitorTcp, CheckTcpSession, WriteRst;
    match e
    case Monitor(ms, k, ctlOk, ok) => MonitorWindow(m, ms, k, ctlOk, ok);
    case Sweep(now, timeout, ok) => CheckTcpSessionWindow(m, now, timeout, ok);
    case Disallow(ok) => ResetWindow(m, ok);
  }

  lemma MonitorWindow(m: Machine, ms: int, k: Kernel, ctlOk: bool, ok: bool)
    ensures SameWindow(m.t, MonitorTcp(m, ms, k, ctlOk, ok).0.t)
  {
    hide SendWindow, CanForward, KeepAlive;
    KeepAliveWindow(m, ms, ok);
  }

  lemma CheckTcpSessionWindow(m: Machine, now: int, timeout: int, ok: bool)
    ensures SameWindow(m.t, CheckTcpSession(m, now, timeout, ok).0.t)
  {
    hide WriteRst;
    ResetWindow(m, ok);
  }

  lemma ResetWindow(m: Machine, ok: bool)
    ensures SameWindow(m.t, WriteRst(m, ok).t)
  {
    hide Outgoing;
  }

  lemma KeepAliveWindow(m: Machine, ms: int, ok: bool)
    ensures SameWindow(m.t, KeepAlive(m, ms, ok).t)
  {
    hide Outgoing;
  }

  lemma StepWindow(m: Machine, e: Event)
    requires WindowFits(m.t)
    ensures WindowFits(Step(m, e).t)
  {
    hide HandleTcp, CheckTcpSocket, MonitorTcp, CheckTcpSession, DisallowTcp;
    match e
    case FromTun(p, now, ok) => HandleTcpWindow(m, p, now, ok);
    case FromSocket(ev) => CheckTcpSocketWindow(m, ev);
    case _ => OthersWindow(m, e);
  }

  lemma {:induction false} RunWindow(m: Machine, es: seq<Event>)
    requires WindowFits(m.t)
    ensures WindowFits(Run(m, es).t)
    decreases |es|
  {
    hide Step, WindowFits;
    if es != [] {
      StepWindow(m, es[0]);
      RunWindow(Step(m, es[0]), es[1..]);
    }
  }

  /** From the SYN on, and for every window scale, every header carries the exact window. */
  lemma WindowAlwaysFits(p: Packet, mss: u16, ws: u8, isn: u32, now: int, k: Kernel, es: seq<Event>)
    ensures WindowFits(Run(NewSession(p, mss, ws, isn, now, k), es).t)
  {
    var m := NewSession(p, mss, ws, isn, now, k);
    WindowComputed(m.t.(recvWindow := 0), k);
    RunWindow(m, es);
  }
}
