/** Usage accounting of a TCP session: reported exactly, and at most once. */
module TcpUsage {
  import opened Words
  import opened Reassembly
  import opened TcpModel
  import opened TcpLifecycle

  function SentTotal(usage: seq<Usage>): nat {
    if usage == [] then 0 else SentTotal(usage[1..]) + usage[0].sent
  }

  function ReceivedTotal(usage: seq<Usage>): nat {
    if usage == [] then 0 else ReceivedTotal(usage[1..]) + usage[0].received
  }

  /** Reported plus live counters are the bytes that crossed the socket; a report is final. */
  predicate Balanced(m: Machine) {
    && SentTotal(m.log.usage) + m.t.sent == |m.log.accepted|
    && ReceivedTotal(m.log.usage) + m.t.received == |m.log.fetched|
    && |m.log.usage| <= 1
    && (m.log.usage != [] ==> m.t.state.Close? && m.t.sent == 0 && m.t.received == 0)
  }

  predicate UsageExact(m: Machine) {
    SocketMatchesState(m.t) && Balanced(m)
  }

  predicate SameCounts(a: Machine, b: Machine) {
    && b.t.sent == a.t.sent && b.t.received == a.t.received
    && b.log.accepted == a.log.accepted && b.log.fetched == a.log.fetched && b.log.usage == a.log.usage
  }

  /** b moved only bytes that it counted, and reported nothing. */
  predicate CountedBytes(a: Machine, b: Machine) {
    && b.t.sent - a.t.sent == |b.log.accepted| - |a.log.accepted|
    && b.t.received - a.t.received == |b.log.fetched| - |a.log.fetched|
    && b.log.usage == a.log.usage
  }

  lemma HandleTcpCounts(m: Machine, p: Packet, now: int, ok: bool)
    ensures SameCounts(m, HandleTcp(m, p, now, ok))
  {
    hide WriteRst, QueueTcp, Shl32, TakeFlags;
    CloseCounts(m, ok);
    CloseCounts(Refresh(m, p, now), ok);
    TakeFlagsCounts(Enqueue(Refresh(m, p, now), p), p, ok);
  }

  lemma TakeFlagsCounts(m: Machine, p: Packet, ok: bool)
    ensures SameCounts(m, TakeFlags(m, p, ok))
  {
    hide WriteRst, TakeFin;
    TakeFinCounts(m, ok);
    CloseCounts(m, ok);
  }

  lemma TakeFinCounts(m: Machine, ok: bool)
    ensures SameCounts(m, TakeFin(m, ok))
  {
    hide Outgoing;
  }

  lemma TransferCounts(m: Machine, e: SocketEvent)
    ensures CountedBytes(m, Transfer(m, e))
  {
    hide Drain, Outgoing, SendWindow, ReceiveWindow, Fetch, Forward, Acknowledge;
    var (m1, fwd) := if e.writable then Forward(m, e.before, e.sends, e.rstOk) else (m, false);
    var m2 := Acknowledge(m1, fwd, e.after, e.now, e.ackOk);
    ForwardCounts(m, e.before, e.sends, e.rstOk);
    AcknowledgeCounts(m1, fwd, e.after, e.now, e.ackOk);
    FetchCounts(m2, e.recv, e.filter, e.now, e.dataOk);
  }

  lemma ForwardCounts(m: Machine, k: Kernel, sends: seq<SendResult>, ok: bool)
    ensures CountedBytes(m, Forward(m, k, sends, ok).0)
  {
    hide Drain, Outgoing;
  }

  lemma AcknowledgeCounts(m: Machine, fwd: bool, k: Kernel, now: int, ok: bool)
    ensures SameCounts(m, Acknowledge(m, fwd, k, now, ok))
  {
    hide ReceiveWindow, Outgoing;
  }

  lemma FetchCounts(m: Machine, recv: RecvResult, filter: Filter, now: int, ok: bool)
    ensures CountedBytes(m, Fetch(m, recv, filter, now, ok))
  {
    hide SendWindow, Outgoing, WriteRst, TakeEof, TakeBytes, Shown;
    var m1 := m.(t := m.t.(time := now));
    CloseCounts(m1, ok);
    if recv.Bytes? {
      var size := if SendWindow(m.t) > m.t.mss then m.t.mss else SendWindow(m.t);
      var b := if |recv.data| <= size then recv.data else recv.data[..size];
      TakeBytesCounts(m1, b, Shown(b, filter), ok);
    }
  }

  lemma TakeBytesCounts(m: Machine, b: Payload, shown: Payload, ok: bool)
    ensures CountedBytes(m, TakeBytes(m, b, shown, ok))
  {
    hide Outgoing;
  }

  lemma CloseCounts(m: Machine, ok: bool)
    ensures SameCounts(m, WriteRst(m, ok)) && SameCounts(m, TakeEof(m, ok))
  {
    hide Outgoing;
  }

  lemma MonitorTcpCounts(m: Machine, ms: int, k: Kernel, ctlOk: bool, ok: bool)
    ensures SameCounts(m, MonitorTcp(m, ms, k, ctlOk, ok).0)
  {
    hide SendWindow, CanForward, KeepAlive;
    KeepAliveCounts(m, ms, ok);
  }

  lemma KeepAliveCounts(m: Machine, ms: int, ok: bool)
    ensures SameCounts(m, KeepAlive(m, ms, ok))
  {
    hide Outgoing;
  }

  lemma CheckTcpSocketUsage(m: Machine, e: SocketEvent)
    requires UsageExact(m) && m.t.open
    ensures UsageExact(CheckTcpSocket(m, e))
  {
    hide Transfer, Outgoing;
    TransferCounts(m, e);
    CheckTcpSocketOnward(m, e);
  }

  lemma ExpireCounts(m: Machine, now: int, timeout: int, ok: bool)
    ensures SameCounts(m, Expire(m, now, timeout, ok))
    ensures m.t.state.Close? ==> Expire(m, now, timeout, ok) == m
  {
    hide WriteRst;
    CloseCounts(m, ok);
  }

  lemma AccountBalances(m: Machine)
    requires Balanced(m) && !m.t.state.Closing?
    ensures var r := Account(m);
            && Balanced(r) && r.t.(sent := 0, received := 0) == m.t.(sent := 0, received := 0)
            && (m.t.state.Close? && (r.log.accepted != [] || r.log.fetched != []) ==>
                  r.log.usage == [Usage(|r.log.accepted|, |r.log.fetched|)])
  {
    var report := [Usage(m.t.sent, m.t.received)];
    assert [] + report == report;
    assert SentTotal(report) == m.t.sent && ReceivedTotal(report) == m.t.received;
    if m.log.usage != [] {
      var u := m.log.usage[0];
      assert m.log.usage == [u];
      assert SentTotal(m.log.usage) == u.sent && ReceivedTotal(m.log.usage) == u.received;
    }
  }

  /** The sweep reports what is left to report, and frees nothing that was not reported. */
  lemma CheckTcpSessionUsage(m: Machine, now: int, timeout: int, ok: bool)
    requires UsageExact(m)
    ensures var (r, freed) := CheckTcpSession(m, now, timeout, ok);
            && UsageExact(r)
            && (freed && (r.log.accepted != [] || r.log.fetched != []) ==>
                  r.log.usage == [Usage(|r.log.accepted|, |r.log.fetched|)])
  {
    hide Expire, Account, SentTotal, ReceivedTotal;
    CheckTcpSessionOnward(m, now, timeout, ok);
    ExpireCounts(m, now, timeout, ok);
    AccountBalances(CloseSocket(Expire(m, now, timeout, ok), now));
  }

  lemma StepUsage(m: Machine, e: Event)
    requires UsageExact(m)
    ensures UsageExact(Step(m, e))
  {
    hide HandleTcp, CheckTcpSocket, MonitorTcp, CheckTcpSession, Outgoing;
    StepOnward(m, e);
    match e
    case FromTun(p, now, ok) => HandleTcpCounts(m, p, now, ok);
    case FromSocket(ev) => if m.t.open { CheckTcpSocketUsage(m, ev); }
    case Monitor(ms, k, ctlOk, ok) => MonitorTcpCounts(m, ms, k, ctlOk, ok);
    case Sweep(now, timeout, ok) => CheckTcpSessionUsage(m, now, timeout, ok);
    case Disallow(ok) =>
  }

  lemma {:induction false} RunUsage(m: Machine, es: seq<Event>)
    requires UsageExact(m)
    ensures UsageExact(Run(m, es))
    decreases |es|
  {
    hide Step, UsageExact;
    if es != [] {
      StepUsage(m, es[0]);
      RunUsage(Step(m, es[0]), es[1..]);
    }
  }

  /** In every reachable state the books balance, at most one report was made, and when the sweep
      frees a session that moved bytes, exactly one report with exactly those bytes was made. */
  lemma UsageOnce(p: Packet, mss: u16, ws: u8, isn: u32, now: int, k: Kernel, es: seq<Event>,
                  sweep: int, timeout: int, ok: bool)
    ensures var m := Run(NewSession(p, mss, ws, isn, now, k), es);
            var (r, freed) := CheckTcpSession(m, sweep, timeout, ok);
            && UsageExact(m)
            && (freed && (r.log.accepted != [] || r.log.fetched != []) ==>
                  r.log.usage == [Usage(|r.log.accepted|, |r.log.fetched|)])
  {
    hide CheckTcpSession;
    var m0 := NewSession(p, mss, ws, isn, now, k);
    RunUsage(m0, es);
    CheckTcpSessionUsage(Run(m0, es), sweep, timeout, ok);
  }
}
